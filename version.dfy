/** The version service: listing a template's versions newest first,
    fetching one version, restoring a template to a version (after writing a
    snapshot of its current content) and deleting a version. */
module VersionService {
  import opened Common
  import opened TemplateStore

  /** The three ordered failures of a restore. */
  datatype RestoreError =
    | VersionNotFound   // no version has the given id
    | TemplateNotFound  // no template has the given id
    | VersionNotOwned   // the version belongs to another document

  /** The tables after a successful restore, and the updated template. */
  datatype RestoreOutcome = RestoreOutcome(templates: seq<Template>, versions: seq<Version>, updated: Template)

  /** Who the HTTP layer says made a change: the signed-in user's id, or
      "system" when there is none or the id is falsy. */
  function ActorOf(user: Option<nat>): (a: Actor)
    ensures a.User? <==> user.Some? && user.value != 0
    ensures a.User? ==> a.userId == user.value
  {
    if user.Some? && user.value != 0 then User(user.value) else System
  }

  /** The change reason a restore snapshot records. */
  function RestoreReason(n: nat): (s: string)
    ensures |s| > |"Restored from version "| && s[..|"Restored from version "|] == "Restored from version "
  {
    "Restored from version " + Decimal(n)
  }

  /** Versions numbered by count: the number the next snapshot of `doc` gets. */
  function NextNumber(vs: seq<Version>, doc: nat): nat {
    |VersionsOf(vs, doc)| + 1
  }

  function Reverse<T(!new)>(s: seq<T>): (r: seq<T>)
    ensures |r| == |s|
    ensures forall i :: 0 <= i < |s| ==> r[i] == s[|s| - 1 - i]
    ensures forall x :: x in r <==> x in s
  {
    if s == [] then [] else Reverse(s[1..]) + [s[0]]
  }

  /** A document's versions keep the table's order. */
  lemma {:induction false} VersionsOfAscending(vs: seq<Version>, doc: nat)
    requires VersionsAscending(vs)
    ensures VersionsAscending(VersionsOf(vs, doc))
    decreases |vs|
  {
    if vs != [] {
      var rest := VersionsOf(vs[1..], doc);
      AscendingTail(vs);
      VersionsOfAscending(vs[1..], doc);
      if vs[0].templateId == doc {
        forall j | 0 <= j < |rest| ensures vs[0].id < rest[j].id && vs[0].createdAt < rest[j].createdAt {
          assert rest[j] in vs[1..];
        }
      }
    }
  }

  /** `getVersionHistory`: the versions of the template with row id
      `templateId`, newest first. */
  function GetVersionHistory(store: Store, templateId: nat): (r: seq<Version>)
    reads store
    ensures forall v :: v in r <==>
      v in store.versions && FindTemplate(store.templates, templateId).Some?
      && v.templateId == FindTemplate(store.templates, templateId).value.documentId
    ensures VersionsAscending(store.versions) ==>
      forall i, j :: 0 <= i < j < |r| ==> r[i].createdAt > r[j].createdAt
  {
    match FindTemplate(store.templates, templateId)
    case None => []
    case Some(t) =>
      var own := VersionsOf(store.versions, t.documentId);
      assert VersionsAscending(store.versions) ==> VersionsAscending(own) by {
        if VersionsAscending(store.versions) {
          VersionsOfAscending(store.versions, t.documentId);
        }
      }
      Reverse(own)
  }

  /** `getVersion`: the version with the given id, if any. */
  function GetVersion(store: Store, versionId: nat): (r: Option<Version>)
    reads store
    ensures r.Some? <==> exists v :: v in store.versions && v.id == versionId
    ensures r.Some? ==> r.value in store.versions && r.value.id == versionId
  {
    FindVersion(store.versions, versionId)
  }

  /** What `restoreVersion` does to the two tables, given the id and the
      stamp the next version row receives. */
  function Restore(ts: seq<Template>, vs: seq<Version>, nextVersionId: nat, clock: nat,
                   templateId: nat, versionId: nat, changedBy: Actor): Result<RestoreOutcome, RestoreError>
  {
    match FindVersion(vs, versionId)
    case None => Err(VersionNotFound)
    case Some(target) =>
      match IndexOfTemplate(ts, templateId)
      case None => Err(TemplateNotFound)
      case Some(i) =>
        var current := ts[i];
        if target.templateId != current.documentId then Err(VersionNotOwned)
        else
          var snapshot := Version(nextVersionId, current.documentId, current.content,
                                  NextNumber(vs, current.documentId), changedBy,
                                  RestoreReason(target.versionNumber), Restored(target.versionNumber), clock);
          var updated := current.(content := target.content);
          Ok(RestoreOutcome(ts[i := updated], vs + [snapshot], updated))
  }

  /** `restoreVersion`. The `reason` argument is accepted and not used. */
  method RestoreVersion(store: Store, templateId: nat, versionId: nat, userId: Actor, reason: Option<string>)
    returns (r: Result<Template, RestoreError>)
    requires store.Valid()
    modifies store
    ensures store.Valid()
    ensures var spec := Restore(old(store.templates), old(store.versions), old(store.nextVersionId),
                                old(store.clock), templateId, versionId, userId);
      && (spec.Err? ==> r == Err(spec.error) && store.templates == old(store.templates)
                        && store.versions == old(store.versions))
      && (spec.Ok? ==> r == Ok(spec.value.updated) && store.templates == spec.value.templates
                       && store.versions == spec.value.versions)
    ensures store.nextId == old(store.nextId) && store.nextDocumentId == old(store.nextDocumentId)
    ensures var spec := Restore(old(store.templates), old(store.versions), old(store.nextVersionId),
                                old(store.clock), templateId, versionId, userId);
      && (spec.Err? ==> store.nextVersionId == old(store.nextVersionId) && store.clock == old(store.clock))
      && (spec.Ok? ==> store.nextVersionId == old(store.nextVersionId) + 1 && store.clock == old(store.clock) + 1)
  {
    var versionToRestore := FindVersion(store.versions, versionId);
    if versionToRestore.None? {
      return Err(VersionNotFound);
    }
    var currentTemplate := FindTemplate(store.templates, templateId);
    if currentTemplate.None? {
      return Err(TemplateNotFound);
    }
    var target, current := versionToRestore.value, currentTemplate.value;
    if target.templateId != current.documentId {
      return Err(VersionNotOwned);
    }
    var versionCount := |VersionsOf(store.versions, current.documentId)|;
    var _ := store.CreateVersion(current.documentId, current.content, versionCount + 1, userId,
                                 RestoreReason(target.versionNumber), Restored(target.versionNumber));
    var updatedTemplate := store.UpdateContent(templateId, target.content);
    r := Ok(updatedTemplate.value);
  }

  /** `deleteVersion`: only the named row goes; every other version, its
      number included, is kept. */
  method DeleteVersion(store: Store, versionId: nat)
    requires store.Valid()
    modifies store
    ensures store.Valid()
    ensures store.versions == WithoutVersion(old(store.versions), versionId)
    ensures forall v :: v in old(store.versions) && v.id != versionId ==> v in store.versions
    ensures forall v :: v in store.versions ==> v.id != versionId
    ensures store.templates == old(store.templates)
    ensures store.nextId == old(store.nextId) && store.nextDocumentId == old(store.nextDocumentId)
    ensures store.nextVersionId == old(store.nextVersionId) && store.clock == old(store.clock)
  {
    store.DeleteVersion(versionId);
  }

  // Properties of restore and delete.

  /** The failures come in order: a missing version first, then a missing
      template, then a version of another document; each leaves the tables as they were. */
  lemma RestoreFailures(ts: seq<Template>, vs: seq<Version>, nv: nat, clock: nat,
                        templateId: nat, versionId: nat, changedBy: Actor)
    ensures var r := Restore(ts, vs, nv, clock, templateId, versionId, changedBy);
      && (r == Err(VersionNotFound) <==> forall v :: v in vs ==> v.id != versionId)
      && (r == Err(TemplateNotFound) <==>
            (exists v :: v in vs && v.id == versionId) && forall t :: t in ts ==> t.id != templateId)
      && (r == Err(VersionNotOwned) <==>
            FindVersion(vs, versionId).Some? && FindTemplate(ts, templateId).Some?
            && FindVersion(vs, versionId).value.templateId != FindTemplate(ts, templateId).value.documentId)
  {
  }

  /** A successful restore adds exactly one version: a snapshot of the
      template as it was before the restore, numbered by count. */
  lemma RestoreSnapshot(ts: seq<Template>, vs: seq<Version>, nv: nat, clock: nat,
                        templateId: nat, versionId: nat, changedBy: Actor)
    requires Restore(ts, vs, nv, clock, templateId, versionId, changedBy).Ok?
    ensures var o := Restore(ts, vs, nv, clock, templateId, versionId, changedBy).value;
      var target := FindVersion(vs, versionId).value;
      var before := FindTemplate(ts, templateId).value;
      && |o.versions| == |vs| + 1 && o.versions[..|vs|] == vs
      && o.versions[|vs|].id == nv
      && o.versions[|vs|].templateId == before.documentId
      && o.versions[|vs|].content == before.content
      && o.versions[|vs|].versionNumber == |VersionsOf(vs, before.documentId)| + 1
      && o.versions[|vs|].changedBy == changedBy
      && o.versions[|vs|].changeReason == RestoreReason(target.versionNumber)
      && o.versions[|vs|].changesSummary == Restored(target.versionNumber)
  {
    var o := Restore(ts, vs, nv, clock, templateId, versionId, changedBy).value;
    assert o.versions[..|vs|] == vs;
  }

  /** A successful restore overwrites the template's content with the
      target's and changes nothing else in the template table. */
  lemma RestoreOverwrite(ts: seq<Template>, vs: seq<Version>, nv: nat, clock: nat,
                         templateId: nat, versionId: nat, changedBy: Actor)
    requires Restore(ts, vs, nv, clock, templateId, versionId, changedBy).Ok?
    ensures var o := Restore(ts, vs, nv, clock, templateId, versionId, changedBy).value;
      var before := FindTemplate(ts, templateId).value;
      && o.updated.content == FindVersion(vs, versionId).value.content
      && o.updated.id == before.id && o.updated.documentId == before.documentId
      && o.updated.templateReferenceId == before.templateReferenceId
      && |o.templates| == |ts| && o.updated in o.templates
      && forall k :: 0 <= k < |ts| && ts[k].id != templateId ==> o.templates[k] == ts[k]
  {
    var target := FindVersion(vs, versionId).value;
    var i := IndexOfTemplate(ts, templateId).value;
    var updated := ts[i].(content := target.content);
    var o := Restore(ts, vs, nv, clock, templateId, versionId, changedBy).value;
    assert o.updated == updated && o.templates == ts[i := updated];
    assert ts[i].id == templateId;
    assert o.templates[i] == updated;
  }

  /** Changing what is stored at a position, but not which positions
      satisfy `p`, does not move the first match. */
  lemma {:induction false} FirstWhereSame<T>(s: seq<T>, s': seq<T>, p: T -> bool)
    requires |s| == |s'| && forall k :: 0 <= k < |s| ==> p(s[k]) == p(s'[k])
    ensures FirstWhere(s, p) == FirstWhere(s', p)
    decreases |s|
  {
    if s != [] {
      FirstWhereSame(s[1..], s'[1..], p);
    }
  }

  /** A row appended after rows of other ids is found by its id. */
  lemma FindAppended(vs: seq<Version>, v: Version)
    requires forall k :: 0 <= k < |vs| ==> vs[k].id != v.id
    ensures FindVersion(vs + [v], v.id) == Some(v)
  {
    var p := (x: Version) => x.id == v.id;
    var f := FirstWhere(vs + [v], p);
    assert p((vs + [v])[|vs|]);
    assert f.Some?;
    assert f.value == |vs|;
  }

  /** Restoring to a version and then to the snapshot that restore wrote
      puts the template's content back as it was. */
  lemma RestoreUndo(ts: seq<Template>, vs: seq<Version>, nv: nat, clock: nat,
                    templateId: nat, versionId: nat, u1: Actor, u2: Actor)
    requires forall k :: 0 <= k < |vs| ==> vs[k].id < nv
    requires Restore(ts, vs, nv, clock, templateId, versionId, u1).Ok?
    ensures var o1 := Restore(ts, vs, nv, clock, templateId, versionId, u1).value;
      var o2 := Restore(o1.templates, o1.versions, nv + 1, clock + 1, templateId, nv, u2);
      && o2.Ok?
      && o2.value.updated == FindTemplate(ts, templateId).value
      && o2.value.templates == ts
  {
    var i := IndexOfTemplate(ts, templateId).value;
    var o1 := Restore(ts, vs, nv, clock, templateId, versionId, u1).value;
    var snapshot := o1.versions[|vs|];
    assert o1.versions == vs + [snapshot];
    FindAppended(vs, snapshot);
    FirstWhereSame(ts, o1.templates, (t: Template) => t.id == templateId);
    assert o1.templates[i := ts[i]] == ts;
  }

  /** In an ascending table, no later row shares the first row's id. */
  lemma HeadIdUnique(vs: seq<Version>)
    requires vs != [] && VersionsAscending(vs)
    ensures forall v :: v in vs[1..] ==> v.id != vs[0].id
  {
    forall v | v in vs[1..] ensures v.id != vs[0].id {
      var j :| 0 <= j < |vs[1..]| && vs[1..][j] == v;
      assert vs[j + 1] == v;
    }
  }

  /** Deleting one version of a document lowers the document's next version
      number by one, so numbers are reused. */
  lemma {:induction false} DeleteLowersNextNumber(vs: seq<Version>, versionId: nat, doc: nat)
    requires VersionsAscending(vs)
    requires exists v :: v in vs && v.id == versionId && v.templateId == doc
    ensures NextNumber(WithoutVersion(vs, versionId), doc) == NextNumber(vs, doc) - 1
    decreases |vs|
  {
    var v0, rest := vs[0], vs[1..];
    var w :| w in vs && w.id == versionId && w.templateId == doc;
    assert vs == [v0] + rest;
    assert w == v0 || w in rest;
    assert VersionsOf(vs, doc) == (if v0.templateId == doc then [v0] else []) + VersionsOf(rest, doc);
    if v0.id == versionId {
      HeadIdUnique(vs);
      assert w !in rest;
      assert v0.templateId == doc;
      WithoutVersionNoMatch(rest, versionId);
      assert WithoutVersion(vs, versionId) == rest;
    } else {
      assert w in rest;
      AscendingTail(vs);
      DeleteLowersNextNumber(rest, versionId, doc);
      var wr := WithoutVersion(rest, versionId);
      assert WithoutVersion(vs, versionId) == [v0] + wr;
      assert ([v0] + wr)[1..] == wr;
      assert VersionsOf([v0] + wr, doc) == (if v0.templateId == doc then [v0] else []) + VersionsOf(wr, doc);
    }
  }

  lemma {:induction false} WithoutVersionNoMatch(vs: seq<Version>, versionId: nat)
    requires forall v :: v in vs ==> v.id != versionId
    ensures WithoutVersion(vs, versionId) == vs
    decreases |vs|
  {
    if vs != [] {
      WithoutVersionNoMatch(vs[1..], versionId);
    }
  }

  /** A concrete history: versions 1 and 2 of a document; deleting version 1
      makes the next snapshot number 2 again, the number version 2 still has. */
  lemma NumberReusedAfterDelete(c: Content)
    ensures var v1 := Version(0, 7, c, 1, System, "", Changed([]), 0);
      var v2 := Version(1, 7, c, 2, System, "", Changed([]), 1);
      var after := WithoutVersion([v1, v2], 0);
      after == [v2] && NextNumber(after, 7) == v2.versionNumber
  {
    var v1 := Version(0, 7, c, 1, System, "", Changed([]), 0);
    var v2 := Version(1, 7, c, 2, System, "", Changed([]), 1);
    assert [v1, v2][1..] == [v2];
    assert [v2][1..] == [];
    assert WithoutVersion([v2], 0) == [v2];
    assert WithoutVersion([v1, v2], 0) == [v2];
    assert VersionsOf([v2], 7) == [v2];
  }
}
