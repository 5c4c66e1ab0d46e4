/** A stored package relationship and the two ways PackageRelationship
    presents it from one package's side (as_tuple and as_dict). A record always
    holds the type as stored; the reverse type is computed on viewing. */
module RelRecord {
  import opened Wrappers
  import opened Host
  import opened RelTypes

  /** A package id or name: the model identifies a package by one key. */
  type PackageId = string

  datatype State = Active | Deleted

  /** One row of the relationship table (the generated id is left out). */
  datatype Relationship = Relationship(
    subjectId: PackageId,
    objectId: PackageId,
    relType: string,
    comment: string,
    state: State)

  /** The dictionary as_dict returns. `relType` is None when the stored type
      has no reverse in the table (forward_to_reverse_type returned None). */
  datatype RelView = RelView(subjectId: PackageId, relType: Option<string>, objectId: PackageId, comment: string)

  /** The bare Exception as_tuple raises for a package outside the relationship. */
  datatype OrientError = NotInRelationship(package: PackageId)

  /** as_tuple: (type, other package) as seen from `package`; the subject test
      comes first, so a self-link is reported in its stored direction. */
  function AsTuple(t: TypeTable, rel: Relationship, package: PackageId): (r: Result<(Option<string>, PackageId), OrientError>)
    ensures r.Failure? <==> package != rel.subjectId && package != rel.objectId
    ensures r.Failure? ==> r.error == NotInRelationship(package)
    ensures r.Success? ==> r.value.1 == (if package == rel.subjectId then rel.objectId else rel.subjectId)
    ensures r.Success? && package == rel.subjectId ==> r.value.0 == Some(rel.relType)
    ensures r.Success? && package != rel.subjectId ==> r.value.0 == ForwardToReverse(t, rel.relType)
  {
    if rel.subjectId == package then Success((Some(rel.relType), rel.objectId))
    else if rel.objectId == package then Success((ForwardToReverse(t, rel.relType), rel.subjectId))
    else Failure(NotInRelationship(package))
  }

  /** as_dict, as its author evidently meant it: subject to object by default;
      seen from the object package, the two ends swap and the type is reversed.
      The source reads `object_pkg` and `subject_pkg` before ever assigning them
      (see AsDictAsWritten); here they start as the record's subject and object. */
  function AsDict(t: TypeTable, rel: Relationship, package: Option<PackageId>): (r: RelView)
    ensures {r.subjectId, r.objectId} == {rel.subjectId, rel.objectId} && r.comment == rel.comment
    ensures package.Some? && (package.value == rel.subjectId || package.value == rel.objectId) ==>
      r.subjectId == package.value
  {
    if package == Some(rel.objectId) then RelView(rel.objectId, ForwardToReverse(t, rel.relType), rel.subjectId, rel.comment)
    else RelView(rel.subjectId, Some(rel.relType), rel.objectId, rel.comment)
  }

  /** as_dict as written: with a package given, `package == object_pkg` reads
      the unbound local `object_pkg`; without one, the `and` short-circuits and
      `getattr(subject_pkg, ...)` reads the unbound local `subject_pkg`. */
  function AsDictAsWritten(rel: Relationship, package: Option<PackageId>): (r: Result<RelView, PyError>)
    ensures r.Failure? && r.error.UnboundLocalError?
  {
    if package.Some? then Failure(UnboundLocalError("object_pkg"))
    else Failure(UnboundLocalError("subject_pkg"))
  }

  /** Every call of as_dict as written raises, whereas the intended view always exists. */
  lemma AsDictAsWrittenNeverReturns(t: TypeTable, rel: Relationship, package: Option<PackageId>)
    ensures AsDictAsWritten(rel, package).Failure?
    ensures AsDictAsWritten(rel, package) != Success(AsDict(t, rel, package))
  {
  }

  /** as_dict reports the same two packages as the record, passes the comment
      through, and reverses the type only when viewed from the object. */
  lemma AsDictShape(t: TypeTable, rel: Relationship, package: Option<PackageId>)
    ensures var v := AsDict(t, rel, package);
      && {v.subjectId, v.objectId} == {rel.subjectId, rel.objectId}
      && v.comment == rel.comment
      && (package != Some(rel.objectId) ==> v == RelView(rel.subjectId, Some(rel.relType), rel.objectId, rel.comment))
      && (package == Some(rel.objectId) ==> v.subjectId == rel.objectId && v.relType == ForwardToReverse(t, rel.relType))
  {
  }

  /** From either end of a link between two different packages, as_tuple and
      as_dict agree: the dict's subject is the viewing package and its
      (type, object) is the tuple. */
  lemma AsTupleMatchesAsDict(t: TypeTable, rel: Relationship, package: PackageId)
    requires package == rel.subjectId || package == rel.objectId
    requires rel.subjectId != rel.objectId
    ensures AsDict(t, rel, Some(package)).subjectId == package
    ensures AsTuple(t, rel, package) ==
      Success((AsDict(t, rel, Some(package)).relType, AsDict(t, rel, Some(package)).objectId))
  {
  }

  /** A link stored with forward type t[i].0 reads as t[i].1 from its object,
      and reverse_to_forward_type of that recovers the stored type. */
  lemma ReverseViewRoundTrip(t: TypeTable, rel: Relationship, i: int)
    requires Distinct(t) && 0 <= i < |t| && rel.relType == t[i].0
    requires rel.subjectId != rel.objectId
    ensures AsTuple(t, rel, rel.objectId) == Success((Some(t[i].1), rel.subjectId))
    ensures AsDict(t, rel, Some(rel.objectId)) == RelView(rel.objectId, Some(t[i].1), rel.subjectId, rel.comment)
    ensures ReverseToForward(t, t[i].1) == Some(rel.relType)
  {
    ForwardReverseAt(t, i);
  }
}
