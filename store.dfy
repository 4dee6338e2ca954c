/** The two persistence tables the plugin works on, kept in memory: the
    email-designer templates and their version snapshots. The `Store` class
    offers the create/update/delete primitives of the object-relational
    mapper; the unique index on `templateReferenceId` is the store's
    invariant, and its primitives are only called when they keep it. */
module TemplateStore {
  import opened Common

  /** The six fields a version snapshots and a restore writes back. */
  datatype Content = Content(
    design: Json,
    name: string,
    subject: string,
    bodyHtml: string,
    bodyText: string,
    tags: Json)

  /** A template row: its row `id`, its `documentId`, its optional
      reference id (unique when present) and its content. */
  datatype Template = Template(id: nat, documentId: nat, templateReferenceId: Option<int>, content: Content)

  /** Who made a change: an authenticated user, or the "system" fallback. */
  datatype Actor = User(userId: nat) | System

  datatype ChangesSummary = Changed(fields: seq<string>) | Restored(restoredFromVersion: nat)

  /** A version row. `templateId` holds the `documentId` of the template the
      version belongs to; `createdAt` is the store's creation stamp. */
  datatype Version = Version(
    id: nat,
    templateId: nat,
    content: Content,
    versionNumber: nat,
    changedBy: Actor,
    changeReason: string,
    changesSummary: ChangesSummary,
    createdAt: nat)

  /** Index of the first element satisfying `p`. */
  function FirstWhere<T>(s: seq<T>, p: T -> bool): (r: Option<nat>)
    ensures r.Some? ==> r.value < |s| && p(s[r.value]) && forall j :: 0 <= j < r.value ==> !p(s[j])
    ensures r.None? ==> forall j :: 0 <= j < |s| ==> !p(s[j])
  {
    if s == [] then None
    else if p(s[0]) then Some(0)
    else
      var r := FirstWhere(s[1..], p);
      if r.Some? then Some(r.value + 1) else None
  }

  /** Row position of the template with row id `id`. */
  function IndexOfTemplate(ts: seq<Template>, id: nat): Option<nat> {
    FirstWhere(ts, (t: Template) => t.id == id)
  }

  /** `findOne({ id })` on the template table. */
  function FindTemplate(ts: seq<Template>, id: nat): (r: Option<Template>)
    ensures r.Some? <==> exists i :: 0 <= i < |ts| && ts[i].id == id
    ensures r.Some? ==> r.value in ts && r.value.id == id
  {
    var i := IndexOfTemplate(ts, id);
    if i.Some? then Some(ts[i.value]) else None
  }

  /** `findOne({ templateReferenceId })`: the first template whose reference
      id equals `key`. An absent key (`None`) matches templates that have no
      reference id, as a `null` filter does. */
  function FindByRef(ts: seq<Template>, key: Option<int>): (r: Option<Template>)
    ensures r.Some? <==> exists i :: 0 <= i < |ts| && ts[i].templateReferenceId == key
    ensures r.Some? ==> r.value in ts && r.value.templateReferenceId == key
  {
    var i := FirstWhere(ts, (t: Template) => t.templateReferenceId == key);
    if i.Some? then Some(ts[i.value]) else None
  }

  /** `findOne({ id })` on the version table. */
  function FindVersion(vs: seq<Version>, id: nat): (r: Option<Version>)
    ensures r.Some? <==> exists i :: 0 <= i < |vs| && vs[i].id == id
    ensures r.Some? ==> r.value in vs && r.value.id == id
  {
    var i := FirstWhere(vs, (v: Version) => v.id == id);
    if i.Some? then Some(vs[i.value]) else None
  }

  /** The versions that belong to the document `doc`, in table order. */
  function VersionsOf(vs: seq<Version>, doc: nat): (r: seq<Version>)
    ensures |r| <= |vs|
    ensures forall v :: v in r <==> v in vs && v.templateId == doc
  {
    if vs == [] then []
    else (if vs[0].templateId == doc then [vs[0]] else []) + VersionsOf(vs[1..], doc)
  }

  /** The version table without the row whose id is `id`. */
  function WithoutVersion(vs: seq<Version>, id: nat): (r: seq<Version>)
    ensures forall v :: v in r <==> v in vs && v.id != id
  {
    if vs == [] then []
    else (if vs[0].id != id then [vs[0]] else []) + WithoutVersion(vs[1..], id)
  }

  /** The template table without the row whose id is `id`. */
  function WithoutTemplate(ts: seq<Template>, id: nat): (r: seq<Template>)
    ensures forall t :: t in r <==> t in ts && t.id != id
  {
    if ts == [] then []
    else (if ts[0].id != id then [ts[0]] else []) + WithoutTemplate(ts[1..], id)
  }

  /** Template rows in table order have increasing ids. */
  predicate IdsAscending(ts: seq<Template>) {
    forall i, j :: 0 <= i < j < |ts| ==> ts[i].id < ts[j].id
  }

  /** The rows after the first keep increasing ids and unique reference ids. */
  lemma TemplatesTail(ts: seq<Template>)
    requires ts != [] && IdsAscending(ts) && UniqueRefs(ts)
    ensures IdsAscending(ts[1..]) && UniqueRefs(ts[1..])
  {
    forall i, j | 0 <= i < j < |ts[1..]|
      ensures ts[1..][i].id < ts[1..][j].id
      ensures ts[1..][i].templateReferenceId.Some? ==> ts[1..][i].templateReferenceId != ts[1..][j].templateReferenceId
    {
      assert ts[1..][i] == ts[i + 1] && ts[1..][j] == ts[j + 1];
    }
  }

  /** A row with a smaller id and a reference id no later row has can go in front. */
  lemma ConsKeepsIndex(h: Template, rest: seq<Template>)
    requires IdsAscending(rest) && UniqueRefs(rest)
    requires forall j :: 0 <= j < |rest| ==> h.id < rest[j].id
    requires forall j :: 0 <= j < |rest| && h.templateReferenceId.Some? ==> h.templateReferenceId != rest[j].templateReferenceId
    ensures IdsAscending([h] + rest) && UniqueRefs([h] + rest)
  {
    var s := [h] + rest;
    forall i, j | 0 <= i < j < |s|
      ensures s[i].id < s[j].id
      ensures s[i].templateReferenceId.Some? ==> s[i].templateReferenceId != s[j].templateReferenceId
    {
      assert s[j] == rest[j - 1];
      if i > 0 {
        assert s[i] == rest[i - 1];
      }
    }
  }

  /** Removing a row keeps the ids ascending and the reference ids unique. */
  lemma {:induction false} WithoutTemplateKeepsIndex(ts: seq<Template>, id: nat)
    requires IdsAscending(ts)
    requires UniqueRefs(ts)
    ensures var r := WithoutTemplate(ts, id);
      IdsAscending(r) && UniqueRefs(r)
    decreases |ts|
  {
    if ts != [] {
      var rest := WithoutTemplate(ts[1..], id);
      TemplatesTail(ts);
      WithoutTemplateKeepsIndex(ts[1..], id);
      if ts[0].id != id {
        assert WithoutTemplate(ts, id) == [ts[0]] + rest;
        forall j | 0 <= j < |rest|
          ensures ts[0].id < rest[j].id
          ensures ts[0].templateReferenceId.Some? ==> ts[0].templateReferenceId != rest[j].templateReferenceId
        {
          assert rest[j] in ts[1..];
          var k :| 0 <= k < |ts[1..]| && ts[1..][k] == rest[j];
          assert ts[k + 1] == rest[j];
        }
        ConsKeepsIndex(ts[0], rest);
      } else {
        assert WithoutTemplate(ts, id) == rest;
      }
    }
  }

  /** The unique index: no two templates share a present reference id. */
  predicate UniqueRefs(ts: seq<Template>) {
    forall i, j :: 0 <= i < j < |ts| && ts[i].templateReferenceId.Some? ==>
      ts[i].templateReferenceId != ts[j].templateReferenceId
  }

  /** Versions in table order have increasing ids and creation stamps. */
  predicate VersionsAscending(vs: seq<Version>) {
    forall i, j :: 0 <= i < j < |vs| ==> vs[i].id < vs[j].id && vs[i].createdAt < vs[j].createdAt
  }

  /** The versions of a document in a table with one row in front. */
  lemma VersionsOfCons(h: Version, x: seq<Version>, doc: nat)
    ensures VersionsOf([h] + x, doc) == (if h.templateId == doc then [h] else []) + VersionsOf(x, doc)
  {
    assert ([h] + x)[0] == h && ([h] + x)[1..] == x;
  }

  lemma ConcatAssoc<T>(a: seq<T>, b: seq<T>, c: seq<T>)
    ensures a + (b + c) == (a + b) + c
  {
  }

  /** One step of `VersionsOfAppend`: it holds for a table when it holds for the table's tail. */
  lemma VersionsOfAppendStep(vs: seq<Version>, v: Version, doc: nat)
    requires vs != []
    requires VersionsOf(vs[1..] + [v], doc) == VersionsOf(vs[1..], doc) + (if v.templateId == doc then [v] else [])
    ensures VersionsOf(vs + [v], doc) == VersionsOf(vs, doc) + (if v.templateId == doc then [v] else [])
  {
    var h, w := vs[0], vs[1..];
    var first := if h.templateId == doc then [h] else [];
    var last := if v.templateId == doc then [v] else [];
    assert VersionsOf(vs, doc) == first + VersionsOf(w, doc) by {
      assert vs == [h] + w;
      VersionsOfCons(h, w, doc);
    }
    assert VersionsOf(vs + [v], doc) == first + VersionsOf(w + [v], doc) by {
      assert vs == [h] + w;
      ConcatAssoc([h], w, [v]);
      VersionsOfCons(h, w + [v], doc);
    }
    ConcatAssoc(first, VersionsOf(w, doc), last);
  }

  /** Appending one row to the version table extends each template's versions by it. */
  lemma {:induction false} VersionsOfAppend(vs: seq<Version>, v: Version, doc: nat)
    ensures VersionsOf(vs + [v], doc) == VersionsOf(vs, doc) + (if v.templateId == doc then [v] else [])
    decreases |vs|
  {
    if vs == [] {
      assert [] + [v] == [v];
      VersionsOfCons(v, [], doc);
    } else {
      VersionsOfAppend(vs[1..], v, doc);
      VersionsOfAppendStep(vs, v, doc);
    }
  }

  /** The rows after the first of an ascending table keep ascending. */
  lemma AscendingTail(vs: seq<Version>)
    requires vs != [] && VersionsAscending(vs)
    ensures VersionsAscending(vs[1..])
  {
    forall i, j | 0 <= i < j < |vs[1..]|
      ensures vs[1..][i].id < vs[1..][j].id && vs[1..][i].createdAt < vs[1..][j].createdAt
    {
      assert vs[1..][i] == vs[i + 1] && vs[1..][j] == vs[j + 1];
    }
  }

  /** Removing a row keeps the table's order. */
  lemma {:induction false} WithoutVersionAscending(vs: seq<Version>, id: nat)
    requires VersionsAscending(vs)
    ensures VersionsAscending(WithoutVersion(vs, id))
    decreases |vs|
  {
    if vs != [] {
      var rest := WithoutVersion(vs[1..], id);
      AscendingTail(vs);
      WithoutVersionAscending(vs[1..], id);
      if vs[0].id != id {
        forall j | 0 <= j < |rest| ensures vs[0].id < rest[j].id && vs[0].createdAt < rest[j].createdAt {
          assert rest[j] in vs[1..];
        }
      }
    }
  }

  class Store {
    var templates: seq<Template>
    var versions: seq<Version>
    var nextId: nat
    var nextDocumentId: nat
    var nextVersionId: nat
    var clock: nat

    ghost predicate Valid()
      reads this
    {
      && (forall i :: 0 <= i < |templates| ==> templates[i].id < nextId)
      && IdsAscending(templates)
      && UniqueRefs(templates)
      && (forall i :: 0 <= i < |versions| ==> versions[i].id < nextVersionId && versions[i].createdAt < clock)
      && VersionsAscending(versions)
    }

    constructor ()
      ensures Valid() && templates == [] && versions == []
    {
      templates, versions := [], [];
      nextId, nextDocumentId, nextVersionId, clock := 0, 0, 0, 0;
    }

    /** Insert a template row. The row id is fresh; so is the document id
        unless the caller supplies one. */
    method CreateTemplate(ref: Option<int>, content: Content, documentId: Option<nat>) returns (t: Template)
      requires Valid()
      requires ref.Some? ==> FindByRef(templates, ref).None?
      modifies this
      ensures Valid()
      ensures t.id == old(nextId) && t.templateReferenceId == ref && t.content == content
      ensures t.documentId == documentId.GetOr(old(nextDocumentId))
      ensures templates == old(templates) + [t]
      ensures versions == old(versions) && clock == old(clock) && nextVersionId == old(nextVersionId)
      ensures nextId == old(nextId) + 1
      ensures nextDocumentId == if documentId.None? then old(nextDocumentId) + 1 else old(nextDocumentId)
    {
      t := Template(nextId, documentId.GetOr(nextDocumentId), ref, content);
      templates := templates + [t];
      nextId := nextId + 1;
      if documentId.None? {
        nextDocumentId := nextDocumentId + 1;
      }
    }

    /** Overwrite the reference id and content of the row with id `id`;
        `None` when there is no such row. */
    method UpdateTemplate(id: nat, ref: Option<int>, content: Content) returns (t: Option<Template>)
      requires Valid()
      requires ref.Some? ==> forall k :: 0 <= k < |templates| && templates[k].id != id ==> templates[k].templateReferenceId != ref
      modifies this
      ensures Valid()
      ensures var i := IndexOfTemplate(old(templates), id);
        if i.None? then t.None? && templates == old(templates)
        else
          var u := old(templates)[i.value].(templateReferenceId := ref, content := content);
          t == Some(u) && templates == old(templates)[i.value := u]
      ensures versions == old(versions) && clock == old(clock) && nextVersionId == old(nextVersionId)
      ensures nextId == old(nextId) && nextDocumentId == old(nextDocumentId)
    {
      var i := IndexOfTemplate(templates, id);
      if i.None? {
        t := None;
      } else {
        var u := templates[i.value].(templateReferenceId := ref, content := content);
        templates := templates[i.value := u];
        t := Some(u);
      }
    }

    /** Overwrite only the content of the row with id `id`. */
    method UpdateContent(id: nat, content: Content) returns (t: Option<Template>)
      requires Valid()
      modifies this
      ensures Valid()
      ensures var i := IndexOfTemplate(old(templates), id);
        if i.None? then t.None? && templates == old(templates)
        else
          var u := old(templates)[i.value].(content := content);
          t == Some(u) && templates == old(templates)[i.value := u]
      ensures versions == old(versions) && clock == old(clock) && nextVersionId == old(nextVersionId)
      ensures nextId == old(nextId) && nextDocumentId == old(nextDocumentId)
    {
      var i := IndexOfTemplate(templates, id);
      if i.None? {
        t := None;
      } else {
        var u := templates[i.value].(content := content);
        templates := templates[i.value := u];
        t := Some(u);
      }
    }

    /** Delete the template row with id `id`, if any. Versions are left alone. */
    method DeleteTemplate(id: nat)
      requires Valid()
      modifies this
      ensures Valid()
      ensures templates == WithoutTemplate(old(templates), id)
      ensures versions == old(versions)
      ensures nextId == old(nextId) && nextDocumentId == old(nextDocumentId)
      ensures nextVersionId == old(nextVersionId) && clock == old(clock)
    {
      WithoutTemplateKeepsIndex(templates, id);
      templates := WithoutTemplate(templates, id);
    }

    /** Insert a version row, stamped now and given a fresh id. */
    method CreateVersion(owner: nat, content: Content, number: nat, changedBy: Actor,
                         reason: string, summary: ChangesSummary) returns (v: Version)
      requires Valid()
      modifies this
      ensures Valid()
      ensures v == Version(old(nextVersionId), owner, content, number, changedBy, reason, summary, old(clock))
      ensures versions == old(versions) + [v]
      ensures templates == old(templates) && nextId == old(nextId) && nextDocumentId == old(nextDocumentId)
      ensures nextVersionId == old(nextVersionId) + 1 && clock == old(clock) + 1
    {
      v := Version(nextVersionId, owner, content, number, changedBy, reason, summary, clock);
      versions := versions + [v];
      nextVersionId := nextVersionId + 1;
      clock := clock + 1;
    }

    /** Delete the version row with id `id`, if any; the rest keep their numbers. */
    method DeleteVersion(id: nat)
      requires Valid()
      modifies this
      ensures Valid()
      ensures versions == WithoutVersion(old(versions), id)
      ensures templates == old(templates)
      ensures nextId == old(nextId) && nextDocumentId == old(nextDocumentId)
      ensures nextVersionId == old(nextVersionId) && clock == old(clock)
    {
      WithoutVersionAscending(versions, id);
      versions := WithoutVersion(versions, id);
    }
  }
}
