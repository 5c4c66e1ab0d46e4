/** The relationship actions (create, update, delete, list) over an abstract
    relationship store. The host's ORM becomes a sequence of records plus the
    set of existing packages; `_validate` becomes the list of errors it would
    report; `_check_access` becomes the decision it would take; commits and
    rollbacks become ghost counters; `context` is a Context object. */
module RelAction {
  import opened Wrappers
  import opened Host
  import opened RelTypes
  import opened RelRecord

  datatype ActionError = NotFound | ValidationError | NotAuthorized

  /** What an action does with its result: hands back a value, hands back an
      exception object without raising it, or raises. */
  datatype Outcome<T> = Done(value: T) | ReturnedError(error: ActionError) | Raised(error: ActionError)

  /** `_get_or_bust(data_dict, ['subject', 'object', 'type'])` finds all three keys. */
  predicate HasTriple(d: DataDict)
    ensures HasTriple(d) <==> {"subject", "object", "type"} <= d.Keys
  {
    "subject" in d && "object" in d && "type" in d
  }

  /** `data_dict.get('comment', u'')` */
  function CommentOf(d: DataDict): (c: string)
    ensures "comment" in d ==> c == d["comment"]
    ensures "comment" !in d ==> c == ""
  {
    if "comment" in d then d["comment"] else ""
  }

  /** The one constraint of the relationship schema that bears on the store: a
      request `_validate` passes names a type of the table. */
  ghost predicate ValidatorSound(t: TypeTable, d: DataDict, errors: seq<string>)
  {
    errors == [] && "type" in d ==> d["type"] in AllTypes(t)
  }

  /** The (subject, object, type) under which the host's `add_relationship`
      stores a request, and under which `get_relationships_with` looks it up:
      a forward type as given; a reverse type turned into its forward type,
      with the two packages swapped; an unknown type as given. Records are
      thereby always stored in the forward direction. */
  function Orient(t: TypeTable, s: PackageId, o: PackageId, ty: string): (r: (PackageId, PackageId, string))
    ensures ty in AllTypes(t) ==> r.2 in ForwardTypes(t)
    ensures r == (s, o, ty) || (r.0, r.1) == (o, s)
  {
    AllTypesIsUnion(t, ty);
    ReverseToForwardFirst(t, ty);
    if ty in ForwardTypes(t) then (s, o, ty)
    else match ReverseToForward(t, ty)
      case Some(f) => (o, s, f)
      case None => (s, o, ty)
  }

  /** The stored triple a request names. */
  function RequestKey(t: TypeTable, d: DataDict): (r: (PackageId, PackageId, string))
    requires HasTriple(d)
    ensures d["type"] in AllTypes(t) ==> r.2 in ForwardTypes(t)
    ensures {r.0, r.1} == {d["subject"], d["object"]}
  {
    Orient(t, d["subject"], d["object"], d["type"])
  }

  /** Seen from the package a request names as subject, the record stored for
      it reads back as the request: the named type and the named object. */
  lemma OrientReadsBack(t: TypeTable, s: PackageId, o: PackageId, ty: string, c: string)
    requires Distinct(t) && ty in AllTypes(t) && s != o
    ensures var k := Orient(t, s, o, ty);
      AsDict(t, Relationship(k.0, k.1, k.2, c, Active), Some(s)) == RelView(s, Some(ty), o, c)
  {
    AllTypesIsUnion(t, ty);
    if ty !in ForwardTypes(t) {
      ReverseToForwardFirst(t, ty);
      ForwardReverseInverse(t, ty);
    }
  }

  // ---------------------------------------------------------------------------
  // get_relationships_with: the active records stored with exactly this
  // (subject, object, type); the actions use the first.

  predicate IsMatch(r: Relationship, s: PackageId, o: PackageId, ty: string)
  {
    r.state == Active && r.subjectId == s && r.objectId == o && r.relType == ty
  }

  function FindActiveFrom(rs: seq<Relationship>, s: PackageId, o: PackageId, ty: string, i: nat): (r: Option<nat>)
    ensures r.Some? ==> i <= r.value < |rs| && IsMatch(rs[r.value], s, o, ty)
    ensures r.Some? ==> forall j :: i <= j < r.value ==> !IsMatch(rs[j], s, o, ty)
    ensures r.None? <==> forall j :: i <= j < |rs| ==> !IsMatch(rs[j], s, o, ty)
    decreases |rs| - i
  {
    if i >= |rs| then None
    else if IsMatch(rs[i], s, o, ty) then Some(i)
    else FindActiveFrom(rs, s, o, ty, i + 1)
  }

  /** The index of `existing_rels[0]`, None when `existing_rels` is empty. */
  function FindActive(rs: seq<Relationship>, s: PackageId, o: PackageId, ty: string): (r: Option<nat>)
    ensures r.Some? ==> r.value < |rs| && IsMatch(rs[r.value], s, o, ty)
    ensures r.Some? ==> forall j :: 0 <= j < r.value ==> !IsMatch(rs[j], s, o, ty)
    ensures r.None? <==> forall j :: 0 <= j < |rs| ==> !IsMatch(rs[j], s, o, ty)
  {
    FindActiveFrom(rs, s, o, ty, 0)
  }

  /** No two active records share a (subject, object, type) triple. */
  ghost predicate UniqueActive(rs: seq<Relationship>)
  {
    forall i, j :: 0 <= i < |rs| && 0 <= j < |rs| && i != j && rs[i].state == Active && rs[j].state == Active ==>
      (rs[i].subjectId, rs[i].objectId, rs[i].relType) != (rs[j].subjectId, rs[j].objectId, rs[j].relType)
  }

  /** With unique active triples, the record found is the only match. */
  lemma MatchIsUnique(rs: seq<Relationship>, s: PackageId, o: PackageId, ty: string)
    requires UniqueActive(rs) && FindActive(rs, s, o, ty).Some?
    ensures forall j :: 0 <= j < |rs| && IsMatch(rs[j], s, o, ty) ==> j == FindActive(rs, s, o, ty).value
  {
  }

  /** Appending a triple that has no active match keeps triples unique, and the
      appended record is the one found afterwards. */
  lemma AppendKeepsUnique(rs: seq<Relationship>, s: PackageId, o: PackageId, ty: string, c: string)
    requires UniqueActive(rs) && FindActive(rs, s, o, ty).None?
    ensures UniqueActive(rs + [Relationship(s, o, ty, c, Active)])
    ensures FindActive(rs + [Relationship(s, o, ty, c, Active)], s, o, ty) == Some(|rs|)
  {
    var rs' := rs + [Relationship(s, o, ty, c, Active)];
    forall i, j | 0 <= i < |rs'| && 0 <= j < |rs'| && i != j && rs'[i].state == Active && rs'[j].state == Active
      ensures (rs'[i].subjectId, rs'[i].objectId, rs'[i].relType) != (rs'[j].subjectId, rs'[j].objectId, rs'[j].relType)
    {
      if i == |rs| {
        assert !IsMatch(rs[j], s, o, ty);
      } else if j == |rs| {
        assert !IsMatch(rs[i], s, o, ty);
      }
    }
    var f := FindActive(rs', s, o, ty);
    assert IsMatch(rs'[|rs|], s, o, ty);
    assert forall j :: 0 <= j < |rs| ==> rs'[j] == rs[j];
  }

  /** A comment change moves no record in or out of any triple's matches. */
  lemma CommentKeepsMatches(rs: seq<Relationship>, i: int, c: string, s: PackageId, o: PackageId, ty: string)
    requires 0 <= i < |rs|
    ensures UniqueActive(rs) ==> UniqueActive(rs[i := rs[i].(comment := c)])
    ensures FindActive(rs[i := rs[i].(comment := c)], s, o, ty) == FindActive(rs, s, o, ty)
  {
    var rs' := rs[i := rs[i].(comment := c)];
    assert forall j :: 0 <= j < |rs| ==> (IsMatch(rs'[j], s, o, ty) <==> IsMatch(rs[j], s, o, ty));
  }

  /** Soft-deleting the found record keeps triples unique and leaves the
      triple with no active match, so a second delete finds nothing. */
  lemma DeleteClearsMatch(rs: seq<Relationship>, s: PackageId, o: PackageId, ty: string)
    requires UniqueActive(rs) && FindActive(rs, s, o, ty).Some?
    ensures var i := FindActive(rs, s, o, ty).value;
      && UniqueActive(rs[i := rs[i].(state := Deleted)])
      && FindActive(rs[i := rs[i].(state := Deleted)], s, o, ty).None?
  {
    var i := FindActive(rs, s, o, ty).value;
    var rs' := rs[i := rs[i].(state := Deleted)];
    forall j | 0 <= j < |rs'| ensures !IsMatch(rs'[j], s, o, ty) {
      if j != i { assert rs'[j] == rs[j]; }
    }
  }

  // ---------------------------------------------------------------------------
  // The shared early exits, in the order the source tests them.

  /** `_get_or_bust` and the two `model.Package.get` tests: a missing key
      raises ValidationError, a missing subject raises NotFound, and a missing
      object RETURNS a NotFound object. */
  function PackageGate<T>(packages: set<PackageId>, d: DataDict): (r: Option<Outcome<T>>)
    ensures r.None? <==> HasTriple(d) && d["subject"] in packages && d["object"] in packages
    ensures r.Some? ==> !r.value.Done? && (r.value.error == NotFound <==> HasTriple(d))
    ensures r.Some? && r.value.ReturnedError? <==> HasTriple(d) && d["subject"] in packages && d["object"] !in packages
  {
    if !HasTriple(d) then Some(Raised(ValidationError))
    else if d["subject"] !in packages then Some(Raised(NotFound))
    else if d["object"] !in packages then Some(ReturnedError(NotFound))
    else None
  }

  /** Create and update then validate (raising ValidationError after a
      rollback) and check access (raising NotAuthorized). */
  function WriteGate(packages: set<PackageId>, d: DataDict, errors: seq<string>, accessGranted: bool): (r: Option<Outcome<RelView>>)
    ensures r.None? <==> PackageGate<RelView>(packages, d).None? && errors == [] && accessGranted
    ensures PackageGate<RelView>(packages, d).Some? ==> r == PackageGate(packages, d)
    ensures r.Some? ==> !r.value.Done?
  {
    if PackageGate<RelView>(packages, d).Some? then PackageGate(packages, d)
    else if errors != [] then Some(Raised(ValidationError))
    else if !accessGranted then Some(Raised(NotAuthorized))
    else None
  }

  /** The validation failure, the one path that rolls the session back. */
  predicate RollsBack(packages: set<PackageId>, d: DataDict, errors: seq<string>)
  {
    PackageGate<RelView>(packages, d).None? && errors != []
  }

  /** create and update as written, up to the point where they fail. Without
      a schema in the context, create builds the default schema first, and
      schema.py never binds the name `ckan` it reads; update instead reads
      `schema_`, which action.py never binds. With a schema, both reach
      `_validate`, which action.py never defines or imports. So the only
      outcomes that come back are those of the package tests. */
  function WriteAsWritten(packages: set<PackageId>, d: DataDict, schemaGiven: bool, isUpdate: bool): (r: Result<Outcome<RelView>, PyError>)
    ensures r.Success? <==> schemaGiven && PackageGate<RelView>(packages, d).Some?
    ensures r.Success? ==> r.value == PackageGate<RelView>(packages, d).value && !r.value.Done?
    ensures r.Failure? ==> r.error.NameError?
  {
    if !schemaGiven then Failure(NameError(if isUpdate then "schema_" else "ckan"))
    else if PackageGate<RelView>(packages, d).Some? then Success(PackageGate<RelView>(packages, d).value)
    else Failure(NameError("_validate"))
  }

  /** A well-formed request between two existing packages: as written it
      raises NameError, the intended gates let it through to the store. */
  lemma WriteAsWrittenNeverStores(a: PackageId, b: PackageId)
    ensures var d := map["subject" := a, "object" := b, "type" := "child_of"];
      && WriteAsWritten({a, b}, d, true, false) == Failure(NameError("_validate"))
      && WriteGate({a, b}, d, [], true).None?
  {
    var d := map["subject" := a, "object" := b, "type" := "child_of"];
    assert HasTriple(d) && d["subject"] == a && d["object"] == b;
  }

  // ---------------------------------------------------------------------------
  // package_relationships_list. The query `pkg1.get_relationships(with_package=pkg2,
  // type=rel)` is the host's; the model takes it to yield, in store order, the
  // active records touching pkg1 whose view from pkg1 has pkg2 at the other end
  // (when given) and the requested type (when given).

  /** `id2` when truthy. */
  function SecondPackage(d: DataDict): (r: Option<PackageId>)
    ensures r.Some? <==> "id2" in d && d["id2"] != ""
    ensures r.Some? ==> r.value == d["id2"]
  {
    if Truthy(Get(d, "id2")) then Get(d, "id2") else None
  }

  /** `rel`, where absent, `''` and `'relationships'` all mean no filter. */
  function TypeFilter(d: DataDict): (r: Option<string>)
    ensures r.Some? ==> "rel" in d && r.value == d["rel"]
    ensures r.None? <==> "rel" !in d || d["rel"] == "" || d["rel"] == "relationships"
  {
    if Truthy(Get(d, "rel")) && d["rel"] != "relationships" then Some(d["rel"]) else None
  }

  /** The record is one of p1's active links, and seen from p1 it has p2 at
      its other end (when given) and the requested type (when given). */
  predicate ListMatch(t: TypeTable, r: Relationship, p1: PackageId, p2: Option<PackageId>, rel: Option<string>)
    ensures ListMatch(t, r, p1, p2, rel) ==> AsDict(t, r, Some(p1)).subjectId == p1
  {
    && r.state == Active
    && (r.subjectId == p1 || r.objectId == p1)
    && (p2.None? || AsDict(t, r, Some(p1)).objectId == p2.value)
    && (rel.None? || AsDict(t, r, Some(p1)).relType == rel)
  }

  /** The query's records, in store order. */
  function Query(t: TypeTable, rs: seq<Relationship>, p1: PackageId, p2: Option<PackageId>, rel: Option<string>): (q: seq<Relationship>)
    ensures forall x :: x in q <==> x in rs && ListMatch(t, x, p1, p2, rel)
    ensures |q| <= |rs|
  {
    if rs == [] then []
    else
      var n := |rs| - 1;
      assert rs == rs[..n] + [rs[n]];
      Query(t, rs[..n], p1, p2, rel) + (if ListMatch(t, rs[n], p1, p2, rel) then [rs[n]] else [])
  }

  /** `[rel.as_dict(pkg1) for rel in relationships]` */
  function Views(t: TypeTable, rs: seq<Relationship>, p1: PackageId): (vs: seq<RelView>)
    ensures |vs| == |rs|
    ensures forall i :: 0 <= i < |rs| ==> vs[i] == AsDict(t, rs[i], Some(p1))
  {
    if rs == [] then [] else Views(t, rs[..|rs| - 1], p1) + [AsDict(t, rs[|rs| - 1], Some(p1))]
  }

  /** Every listed dict is seen from the primary package: its subject is that
      package, its object the second package when one was named, and its type
      the filter when one was given. */
  lemma ListedFromPrimary(t: TypeTable, rs: seq<Relationship>, p1: PackageId, p2: Option<PackageId>, rel: Option<string>)
    ensures forall v :: v in Views(t, Query(t, rs, p1, p2, rel), p1) ==>
      && v.subjectId == p1
      && (p2.Some? ==> v.objectId == p2.value)
      && (rel.Some? ==> v.relType == rel)
  {
    var q := Query(t, rs, p1, p2, rel);
    var vs := Views(t, q, p1);
    forall v | v in vs
      ensures v.subjectId == p1 && (p2.Some? ==> v.objectId == p2.value) && (rel.Some? ==> v.relType == rel)
    {
      var i :| 0 <= i < |vs| && vs[i] == v;
      assert q[i] in q;
    }
  }

  /** Every active record touching p1 is listed by an unfiltered list of p1,
      viewed from p1: from its object package it appears with its ends swapped
      and its type reversed. */
  lemma UnfilteredListShows(t: TypeTable, rs: seq<Relationship>, k: int, p1: PackageId)
    requires 0 <= k < |rs| && rs[k].state == Active
    requires rs[k].subjectId == p1 || rs[k].objectId == p1
    ensures AsDict(t, rs[k], Some(p1)) in Views(t, Query(t, rs, p1, None, None), p1)
    ensures rs[k].objectId == p1 ==>
      RelView(p1, ForwardToReverse(t, rs[k].relType), rs[k].subjectId, rs[k].comment)
        in Views(t, Query(t, rs, p1, None, None), p1)
  {
    var q := Query(t, rs, p1, None, None);
    assert rs[k] in q;
    var i :| 0 <= i < |q| && q[i] == rs[k];
    assert Views(t, q, p1)[i] == AsDict(t, rs[k], Some(p1));
  }

  // ---------------------------------------------------------------------------
  // The store and the context.

  /** The caller's `context`: the `defer_commit` flag it passes in and the
      `relationship` entry the actions write back (an index into the store). */
  class Context {
    var deferCommit: bool
    var relationship: Option<nat>

    constructor (deferCommit: bool)
      ensures this.deferCommit == deferCommit && relationship == None
    {
      this.deferCommit := deferCommit;
      relationship := None;
    }
  }

  class RelationshipStore {
    const types: TypeTable
    var packages: set<PackageId>
    var records: seq<Relationship>
    ghost var commits: nat
    ghost var rollbacks: nat

    /** Both ends of every record exist, every record is stored with a
        forward type, and no two active records share a triple. */
    ghost predicate Valid()
      reads this
    {
      && (forall r :: r in records ==> r.subjectId in packages && r.objectId in packages && r.relType in ForwardTypes(types))
      && UniqueActive(records)
    }

    constructor (types: TypeTable, packages: set<PackageId>)
      ensures Valid()
      ensures this.types == types && this.packages == packages && records == []
      ensures commits == 0 && rollbacks == 0
    {
      this.types := types;
      this.packages := packages;
      records := [];
      commits, rollbacks := 0, 0;
    }

    /** _update_package_relationship: write the comment only when it differs,
        commit only then and only without defer_commit, and hand back the dict
        seen from the record's subject. */
    method UpdateComment(ctx: Context, i: nat, comment: string) returns (view: RelView)
      requires Valid() && i < |records|
      modifies this
      ensures Valid()
      ensures packages == old(packages) && rollbacks == old(rollbacks)
      ensures records == old(records)[i := old(records)[i].(comment := comment)]
      ensures commits == old(commits) + (if old(records)[i].comment != comment && !ctx.deferCommit then 1 else 0)
      ensures view == AsDict(types, records[i], Some(records[i].subjectId))
    {
      var relationship := records[i];
      var isChanged := relationship.comment != comment;
      if isChanged {
        CommentKeepsMatches(records, i, comment, "", "", "");
        records := records[i := relationship.(comment := comment)];
        if !ctx.deferCommit {
          commits := commits + 1;
        }
      } else {
        assert records[i := relationship.(comment := comment)] == records;
      }
      view := AsDict(types, records[i], Some(records[i].subjectId));
    }

    /** package_relationship_create */
    method Create(ctx: Context, data: DataDict, errors: seq<string>, accessGranted: bool) returns (out: Outcome<RelView>)
      requires Valid()
      requires ValidatorSound(types, data, errors)
      modifies this, ctx
      ensures Valid()
      ensures packages == old(packages) && ctx.deferCommit == old(ctx.deferCommit)
      ensures rollbacks == old(rollbacks) + (if RollsBack(old(packages), data, errors) then 1 else 0)
      ensures WriteGate(old(packages), data, errors, accessGranted).Some? ==>
        && out == WriteGate(old(packages), data, errors, accessGranted).value
        && records == old(records) && commits == old(commits) && ctx.relationship == old(ctx.relationship)
      ensures WriteGate(old(packages), data, errors, accessGranted).None? ==>
        var k, c := RequestKey(types, data), CommentOf(data);
        var s, o, ty := k.0, k.1, k.2;
        match FindActive(old(records), s, o, ty)
        case Some(i) =>
          && records == old(records)[i := old(records)[i].(comment := c)]
          && commits == old(commits) + (if old(records)[i].comment != c && !ctx.deferCommit then 1 else 0)
          && ctx.relationship == old(ctx.relationship)
          && out == Done(AsDict(types, records[i], Some(records[i].subjectId)))
        case None =>
          && records == old(records) + [Relationship(s, o, ty, c, Active)]
          && commits == old(commits) + (if ctx.deferCommit then 0 else 1)
          && ctx.relationship == Some(|old(records)|)
          && out == Done(AsDict(types, Relationship(s, o, ty, c, Active), None))
      ensures out.Done? ==> HasTriple(data) && (var k := RequestKey(types, data); var f := FindActive(records, k.0, k.1, k.2);
        f.Some? && records[f.value].comment == CommentOf(data))
    {
      if !HasTriple(data) {
        return Raised(ValidationError);
      }
      var id1, id2, relType := data["subject"], data["object"], data["type"];
      var comment := CommentOf(data);
      if id1 !in packages {
        return Raised(NotFound);
      }
      if id2 !in packages {
        return ReturnedError(NotFound);
      }
      if errors != [] {
        rollbacks := rollbacks + 1;
        return Raised(ValidationError);
      }
      if !accessGranted {
        return Raised(NotAuthorized);
      }
      var key := Orient(types, id1, id2, relType);
      var existing := FindActive(records, key.0, key.1, key.2);
      if existing.Some? {
        CommentKeepsMatches(records, existing.value, comment, key.0, key.1, key.2);
        var view := UpdateComment(ctx, existing.value, comment);
        return Done(view);
      }
      var rel := Relationship(key.0, key.1, key.2, comment, Active);
      AppendKeepsUnique(records, key.0, key.1, key.2, comment);
      records := records + [rel];
      if !ctx.deferCommit {
        commits := commits + 1;
      }
      ctx.relationship := Some(|records| - 1);
      return Done(AsDict(types, rel, None));
    }

    /** package_relationship_update: only the comment of the found record changes. */
    method Update(ctx: Context, data: DataDict, errors: seq<string>, accessGranted: bool) returns (out: Outcome<RelView>)
      requires Valid()
      modifies this, ctx
      ensures Valid()
      ensures packages == old(packages) && ctx.deferCommit == old(ctx.deferCommit)
      ensures rollbacks == old(rollbacks) + (if RollsBack(old(packages), data, errors) then 1 else 0)
      ensures WriteGate(old(packages), data, errors, accessGranted).Some? ==>
        && out == WriteGate(old(packages), data, errors, accessGranted).value
        && records == old(records) && commits == old(commits) && ctx.relationship == old(ctx.relationship)
      ensures WriteGate(old(packages), data, errors, accessGranted).None? ==>
        var k, c := RequestKey(types, data), CommentOf(data);
        var s, o, ty := k.0, k.1, k.2;
        match FindActive(old(records), s, o, ty)
        case None =>
          && out == Raised(NotFound)
          && records == old(records) && commits == old(commits) && ctx.relationship == old(ctx.relationship)
        case Some(i) =>
          && records == old(records)[i := old(records)[i].(comment := c)]
          && commits == old(commits) + (if old(records)[i].comment != c && !ctx.deferCommit then 1 else 0)
          && ctx.relationship == Some(i)
          && out == Done(AsDict(types, records[i], Some(records[i].subjectId)))
    {
      if !HasTriple(data) {
        return Raised(ValidationError);
      }
      var id1, id2, rel := data["subject"], data["object"], data["type"];
      if id1 !in packages {
        return Raised(NotFound);
      }
      if id2 !in packages {
        return ReturnedError(NotFound);
      }
      if errors != [] {
        rollbacks := rollbacks + 1;
        return Raised(ValidationError);
      }
      if !accessGranted {
        return Raised(NotAuthorized);
      }
      var key := Orient(types, id1, id2, rel);
      var existing := FindActive(records, key.0, key.1, key.2);
      if existing.None? {
        return Raised(NotFound);
      }
      var entity := existing.value;
      var comment := CommentOf(data);
      ctx.relationship := Some(entity);
      var view := UpdateComment(ctx, entity, comment);
      return Done(view);
    }

    /** package_relationship_delete: a soft delete of the found record,
        committed at once. `context['relationship']` is set before the access
        check, so it is set on a refusal too. */
    method Delete(ctx: Context, data: DataDict, accessGranted: bool) returns (out: Outcome<()>)
      requires Valid()
      modifies this, ctx
      ensures Valid()
      ensures packages == old(packages) && rollbacks == old(rollbacks) && ctx.deferCommit == old(ctx.deferCommit)
      ensures PackageGate<()>(old(packages), data).Some? ==>
        && out == PackageGate<()>(old(packages), data).value
        && records == old(records) && commits == old(commits) && ctx.relationship == old(ctx.relationship)
      ensures PackageGate<()>(old(packages), data).None? ==>
        var k := RequestKey(types, data);
        var s, o, ty := k.0, k.1, k.2;
        match FindActive(old(records), s, o, ty)
        case None =>
          && out == Raised(NotFound)
          && records == old(records) && commits == old(commits) && ctx.relationship == old(ctx.relationship)
        case Some(i) =>
          && ctx.relationship == Some(i)
          && (accessGranted ==>
                && out == Done(())
                && records == old(records)[i := old(records)[i].(state := Deleted)]
                && commits == old(commits) + 1)
          && (!accessGranted ==>
                out == Raised(NotAuthorized) && records == old(records) && commits == old(commits))
      ensures out.Done? ==> HasTriple(data) && (var k := RequestKey(types, data); FindActive(records, k.0, k.1, k.2).None?)
    {
      if !HasTriple(data) {
        return Raised(ValidationError);
      }
      var id1, id2, rel := data["subject"], data["object"], data["type"];
      if id1 !in packages {
        return Raised(NotFound);
      }
      if id2 !in packages {
        return ReturnedError(NotFound);
      }
      var key := Orient(types, id1, id2, rel);
      var existing := FindActive(records, key.0, key.1, key.2);
      if existing.None? {
        return Raised(NotFound);
      }
      var i := existing.value;
      ctx.relationship := Some(i);
      if !accessGranted {
        return Raised(NotAuthorized);
      }
      DeleteClearsMatch(records, key.0, key.1, key.2);
      records := records[i := records[i].(state := Deleted)];
      commits := commits + 1;
      return Done(());
    }

    /** package_relationships_list: one dict per record of the query, in
        order, each seen from the primary package; NotFound when a type filter
        matches nothing. */
    method List(data: DataDict, accessGranted: bool) returns (out: Outcome<seq<RelView>>)
      ensures "id" !in data ==> out == Raised(ValidationError)
      ensures "id" in data && data["id"] !in packages ==> out == Raised(NotFound)
      ensures "id" in data && data["id"] in packages && SecondPackage(data).Some? && SecondPackage(data).value !in packages ==>
        out == Raised(NotFound)
      ensures "id" in data && data["id"] in packages && (SecondPackage(data).Some? ==> SecondPackage(data).value in packages) ==>
        var q := Query(types, records, data["id"], SecondPackage(data), TypeFilter(data));
        && (!accessGranted ==> out == Raised(NotAuthorized))
        && (accessGranted && TypeFilter(data).Some? && q == [] ==> out == Raised(NotFound))
        && (accessGranted && (TypeFilter(data).None? || q != []) ==> out == Done(Views(types, q, data["id"])))
    {
      if "id" !in data {
        return Raised(ValidationError);
      }
      var id1 := data["id"];
      var pkg2 := SecondPackage(data);
      if id1 !in packages {
        return Raised(NotFound);
      }
      if pkg2.Some? && pkg2.value !in packages {
        return Raised(NotFound);
      }
      var rel := TypeFilter(data);
      if !accessGranted {
        return Raised(NotAuthorized);
      }
      var relationships := [];
      for k := 0 to |records|
        invariant relationships == Query(types, records[..k], id1, pkg2, rel)
      {
        assert records[..k + 1][..k] == records[..k];
        if ListMatch(types, records[k], id1, pkg2, rel) {
          relationships := relationships + [records[k]];
        }
      }
      assert records[..|records|] == records;
      if rel.Some? && relationships == [] {
        return Raised(NotFound);
      }
      var relationshipDicts := [];
      for k := 0 to |relationships|
        invariant relationshipDicts == Views(types, relationships[..k], id1)
      {
        assert relationships[..k + 1][..k] == relationships[..k];
        relationshipDicts := relationshipDicts + [AsDict(types, relationships[k], Some(id1))];
      }
      assert relationships[..|relationships|] == relationships;
      return Done(relationshipDicts);
    }
  }

  /** A second delete of the same triple finds no active record. */
  method DeleteTwice(store: RelationshipStore, ctx: Context, data: DataDict)
    returns (first: Outcome<()>, second: Outcome<()>)
    requires store.Valid()
    modifies store, ctx
    ensures first.Done? ==> second == Raised(NotFound)
  {
    first := store.Delete(ctx, data, true);
    second := store.Delete(ctx, data, true);
  }

  /** Creating the same triple twice adds at most one record: the second
      create finds the record and degrades to a comment update. */
  method CreateTwice(store: RelationshipStore, ctx: Context, data: DataDict)
    returns (first: Outcome<RelView>, second: Outcome<RelView>)
    requires store.Valid() && ValidatorSound(store.types, data, [])
    modifies store, ctx
    ensures first.Done? ==> second.Done? && HasTriple(data)
    ensures first.Done? ==>
      |store.records| == |old(store.records)| +
        (var k := RequestKey(store.types, data); if FindActive(old(store.records), k.0, k.1, k.2).None? then 1 else 0)
    ensures store.Valid() && store.packages == old(store.packages)
    ensures first.Done? ==> data["subject"] in store.packages && data["object"] in store.packages
    ensures first.Done? ==>
      var k := RequestKey(store.types, data);
      FindActive(store.records, k.0, k.1, k.2).Some? &&
      store.records[FindActive(store.records, k.0, k.1, k.2).value].comment == CommentOf(data)
  {
    first := store.Create(ctx, data, [], true);
    ghost var afterFirst := store.records;
    second := store.Create(ctx, data, [], true);
    assert first.Done? ==> |store.records| == |afterFirst|;
  }

  /** The query keeps every matching record as often as the store holds it,
      and no other record: one dict per matching relationship. */
  lemma {:induction false} QueryCounts(t: TypeTable, rs: seq<Relationship>, p1: PackageId, p2: Option<PackageId>, rel: Option<string>)
    ensures forall x :: multiset(Query(t, rs, p1, p2, rel))[x] == if ListMatch(t, x, p1, p2, rel) then multiset(rs)[x] else 0
    decreases |rs|
  {
    if rs != [] {
      var n := |rs| - 1;
      assert rs == rs[..n] + [rs[n]];
      QueryCounts(t, rs[..n], p1, p2, rel);
    }
  }

  /** A query no record matches is empty. */
  lemma {:induction false} QueryNone(t: TypeTable, rs: seq<Relationship>, p1: PackageId, p2: Option<PackageId>, rel: Option<string>)
    requires forall j :: 0 <= j < |rs| ==> !ListMatch(t, rs[j], p1, p2, rel)
    ensures Query(t, rs, p1, p2, rel) == []
    decreases |rs|
  {
    if rs != [] {
      var n := |rs| - 1;
      assert forall j :: 0 <= j < n ==> rs[..n][j] == rs[j];
      QueryNone(t, rs[..n], p1, p2, rel);
    }
  }

  /** A query exactly one record matches lists that record alone. */
  lemma {:induction false} QuerySingle(t: TypeTable, rs: seq<Relationship>, p1: PackageId, p2: Option<PackageId>, rel: Option<string>, i: int)
    requires 0 <= i < |rs| && ListMatch(t, rs[i], p1, p2, rel)
    requires forall j :: 0 <= j < |rs| && j != i ==> !ListMatch(t, rs[j], p1, p2, rel)
    ensures Query(t, rs, p1, p2, rel) == [rs[i]]
    decreases |rs|
  {
    var n := |rs| - 1;
    assert forall j :: 0 <= j < n ==> rs[..n][j] == rs[j];
    if i == n {
      QueryNone(t, rs[..n], p1, p2, rel);
    } else {
      QuerySingle(t, rs[..n], p1, p2, rel, i);
    }
  }

  /** In a table without repeated names, a forward-typed record that the list
      of s with id2 o and rel ty yields is stored under the request's key,
      unless ty is a symmetric type (which may be stored either way round). */
  lemma ListMatchIsKey(t: TypeTable, r: Relationship, s: PackageId, o: PackageId, ty: string)
    requires Distinct(t) && ty in AllTypes(t) && !Symmetric(t, ty) && s != o
    requires r.relType in ForwardTypes(t)
    ensures ListMatch(t, r, s, Some(o), Some(ty)) ==>
      var k := Orient(t, s, o, ty); IsMatch(r, k.0, k.1, k.2)
  {
    if ListMatch(t, r, s, Some(o), Some(ty)) && r.objectId == s {
      var f := r.relType;
      assert ForwardToReverse(t, f) == Some(ty);
      var i :| 0 <= i < |t| && t[i] == (f, ty);
      ForwardReverseAt(t, i);
      assert forall m :: 0 <= m < |t| ==> t[m].0 != ty;
      assert ty !in ForwardTypes(t);
    }
  }

  /** While every record is stored forward and triples are unique, the list of
      a request's subject, filtered by its object and its (non-symmetric)
      type, shows exactly one dict when the request's key has an active
      record: the request itself, with the record's comment. */
  lemma ListOneForKey(t: TypeTable, rs: seq<Relationship>, s: PackageId, o: PackageId, ty: string)
    requires Distinct(t) && ty in AllTypes(t) && !Symmetric(t, ty) && s != o
    requires UniqueActive(rs) && forall r :: r in rs ==> r.relType in ForwardTypes(t)
    requires var k := Orient(t, s, o, ty); FindActive(rs, k.0, k.1, k.2).Some?
    ensures var k := Orient(t, s, o, ty); var i := FindActive(rs, k.0, k.1, k.2).value;
      Views(t, Query(t, rs, s, Some(o), Some(ty)), s) == [RelView(s, Some(ty), o, rs[i].comment)]
  {
    var k := Orient(t, s, o, ty);
    var i := FindActive(rs, k.0, k.1, k.2).value;
    MatchIsUnique(rs, k.0, k.1, k.2);
    OrientReadsBack(t, s, o, ty, rs[i].comment);
    assert rs[i] == Relationship(k.0, k.1, k.2, rs[i].comment, Active);
    assert ListMatch(t, rs[i], s, Some(o), Some(ty));
    forall j | 0 <= j < |rs| && j != i
      ensures !ListMatch(t, rs[j], s, Some(o), Some(ty))
    {
      assert rs[j] in rs;
      ListMatchIsKey(t, rs[j], s, o, ty);
    }
    QuerySingle(t, rs, s, Some(o), Some(ty), i);
  }

  /** After creating the same request twice, the list of its subject filtered
      by its object and its type returns exactly one dict: the request. */
  method CreateTwiceListsOnce(store: RelationshipStore, ctx: Context, data: DataDict)
    returns (first: Outcome<RelView>, second: Outcome<RelView>, listed: Outcome<seq<RelView>>)
    requires store.Valid() && ValidatorSound(store.types, data, []) && Distinct(store.types)
    requires HasTriple(data) && data["subject"] != data["object"] && !Symmetric(store.types, data["type"])
    requires data["object"] != "" && data["type"] != "" && data["type"] != "relationships"
    modifies store, ctx
    ensures first.Done? ==>
      listed == Done([RelView(data["subject"], Some(data["type"]), data["object"], CommentOf(data))])
  {
    first, second := CreateTwice(store, ctx, data);
    var s, o, ty := data["subject"], data["object"], data["type"];
    var listing := map["id" := s, "id2" := o, "rel" := ty];
    assert listing["id2"] == o && listing["rel"] == ty;
    assert SecondPackage(listing) == Some(o) && TypeFilter(listing) == Some(ty);
    listed := store.List(listing, true);
    if first.Done? {
      ListOneForKey(store.types, store.records, s, o, ty);
    }
  }

  /** A single link a child_of b, listed from b, reads as parent_of. */
  lemma ChildOfListedFromParent(a: PackageId, b: PackageId, c: string)
    requires a != b
    ensures var rel := Relationship(a, b, "child_of", c, Active);
      Views(DefaultTypes, Query(DefaultTypes, [rel], b, None, None), b) ==
        [RelView(b, Some("parent_of"), a, c)]
  {
    var rel := Relationship(a, b, "child_of", c, Active);
    DefaultIsDistinct();
    ForwardReverseAt(DefaultTypes, 0);
    assert ListMatch(DefaultTypes, rel, b, None, None);
    assert [rel][..0] == [];
    assert Query(DefaultTypes, [rel], b, None, None) == [rel];
  }

  /** A store over the default table holding the one link a child_of b lists,
      from b, a single parent_of dict. */
  method ListSingleChildOf(store: RelationshipStore, a: PackageId, b: PackageId, c: string)
    returns (listed: Outcome<seq<RelView>>)
    requires a != b && store.types == DefaultTypes && b in store.packages
    requires store.records == [Relationship(a, b, "child_of", c, Active)]
    ensures listed == Done([RelView(b, Some("parent_of"), a, c)])
  {
    ChildOfListedFromParent(a, b, c);
    var listing := map["id" := b];
    assert SecondPackage(listing).None? && TypeFilter(listing).None?;
    listed := store.List(listing, true);
  }

  /** Creating a child_of b on a fresh store over the default table stores
      one active record, which the list of b shows as parent_of. */
  method CreateChildOf(a: PackageId, b: PackageId, c: string)
    returns (store: RelationshipStore, ctx: Context, created: Outcome<RelView>, listed: Outcome<seq<RelView>>)
    requires a != b
    ensures fresh(store) && fresh(ctx) && store.Valid()
    ensures store.types == DefaultTypes && store.packages == {a, b}
    ensures store.records == [Relationship(a, b, "child_of", c, Active)]
    ensures created == Done(RelView(a, Some("child_of"), b, c))
    ensures listed == Done([RelView(b, Some("parent_of"), a, c)])
  {
    assert ForwardTypes(DefaultTypes)[0] == "child_of";
    store := new RelationshipStore(DefaultTypes, {a, b});
    ctx := new Context(false);
    var data := map["subject" := a, "object" := b, "type" := "child_of", "comment" := c];
    created := store.Create(ctx, data, [], true);
    assert store.records == [Relationship(a, b, "child_of", c, Active)];
    listed := ListSingleChildOf(store, a, b, c);
  }

  /** Updating the comment of that link keeps exactly one record, which the
      list of b now shows with the new comment. */
  method UpdateChildOf(store: RelationshipStore, ctx: Context, a: PackageId, b: PackageId, c: string, c': string)
    returns (listed: Outcome<seq<RelView>>)
    requires a != b && store.Valid() && store.types == DefaultTypes && store.packages == {a, b}
    requires store.records == [Relationship(a, b, "child_of", c, Active)]
    modifies store, ctx
    ensures store.records == [Relationship(a, b, "child_of", c', Active)]
    ensures listed == Done([RelView(b, Some("parent_of"), a, c')])
  {
    var data := map["subject" := a, "object" := b, "type" := "child_of", "comment" := c'];
    assert IsMatch(store.records[0], a, b, "child_of");
    var updated := store.Update(ctx, data, [], true);
    assert store.records == [Relationship(a, b, "child_of", c', Active)];
    listed := ListSingleChildOf(store, a, b, c');
  }

  /** The two steps in sequence: create with comment c1, update to c2. */
  method ChildOfScenario(a: PackageId, b: PackageId, c1: string, c2: string)
    returns (before: Outcome<seq<RelView>>, after: Outcome<seq<RelView>>)
    requires a != b
    ensures before == Done([RelView(b, Some("parent_of"), a, c1)])
    ensures after == Done([RelView(b, Some("parent_of"), a, c2)])
  {
    var store, ctx, created;
    store, ctx, created, before := CreateChildOf(a, b, c1);
    after := UpdateChildOf(store, ctx, a, b, c1, c2);
  }

  /** Over the default table a parent_of request names the child_of record
      with its packages swapped. */
  lemma OrientParentOf(a: PackageId, b: PackageId)
    ensures Orient(DefaultTypes, b, a, "parent_of") == (a, b, "child_of")
  {
    DefaultIsDistinct();
    ForwardReverseAt(DefaultTypes, 0);
    assert ForwardTypes(DefaultTypes) == ["child_of", "sibling_of"];
  }

  /** b parent_of a, asked of a store holding a child_of b, finds that record
      and changes only its comment: the link is not stored a second time. */
  method CreateParentOf(store: RelationshipStore, ctx: Context, a: PackageId, b: PackageId, c: string, c': string)
    returns (created: Outcome<RelView>)
    requires a != b && store.Valid() && store.types == DefaultTypes && store.packages == {a, b}
    requires store.records == [Relationship(a, b, "child_of", c, Active)]
    modifies store, ctx
    ensures store.records == [Relationship(a, b, "child_of", c', Active)]
    ensures created == Done(RelView(a, Some("child_of"), b, c'))
  {
    OrientParentOf(a, b);
    var data := map["subject" := b, "object" := a, "type" := "parent_of", "comment" := c'];
    assert RequestKey(DefaultTypes, data) == (a, b, "child_of");
    assert IsMatch(store.records[0], a, b, "child_of");
    created := store.Create(ctx, data, [], true);
  }
}
