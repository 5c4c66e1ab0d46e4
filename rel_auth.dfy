/** The authorization functions of the relationship actions: each is a boolean
    combination of the host's per-package permission decisions, returned as a
    `{success, msg}` result. The host decision `is_authorized_boolean(action,
    context, {'id': id})` is the oracle `authorized(action, id)`. */
module RelAuth {
  import opened Wrappers
  import opened Host

  /** The host's permission oracle for the current user; the id is None when
      the request named no package under the key read. */
  type Authorizer = (string, Option<string>) -> bool

  /** `{'success': ..., 'msg': ...}`; `msg` is None when the key is absent. */
  datatype AuthResult = AuthResult(success: bool, msg: Option<string>)

  /** The message key accompanies exactly the refusals. */
  predicate WellFormed(r: AuthResult)
  {
    r.msg.Some? <==> !r.success
  }

  function Decide(allowed: bool, denial: string): (r: AuthResult)
    ensures WellFormed(r) && r.success == allowed
  {
    if allowed then AuthResult(true, None) else AuthResult(false, Some(denial))
  }

  /** package_relationship_create: the user may update both the subject and the object. */
  function CreateAuth(authorized: Authorizer, user: string, d: DataDict): (r: AuthResult)
    ensures WellFormed(r)
    ensures r.success <==>
      authorized("package_update", Get(d, "subject")) && authorized("package_update", Get(d, "object"))
    ensures !r.success ==> r.msg == Some("User " + user + " not authorized to edit these packages")
  {
    var authorized1 := authorized("package_update", Get(d, "subject"));
    var authorized2 := authorized("package_update", Get(d, "object"));
    Decide(authorized1 && authorized2, "User " + user + " not authorized to edit these packages")
  }

  /** package_relationship_delete: whoever may create the relationship may
      delete it. The host answers `is_authorized_boolean('package_relationship_create',
      ...)` by running CreateAuth on the same data_dict. `relationshipId` is the
      id of `context['relationship']`, which the delete action sets before asking. */
  function DeleteAuth(authorized: Authorizer, user: string, relationshipId: string, d: DataDict): (r: AuthResult)
    ensures WellFormed(r)
    ensures r.success == CreateAuth(authorized, user, d).success
  {
    Decide(CreateAuth(authorized, user, d).success,
      "User " + user + " not authorized to delete relationship " + relationshipId)
  }

  /** package_relationship_update: the create decision, message included. */
  function UpdateAuth(authorized: Authorizer, user: string, d: DataDict): (r: AuthResult)
    ensures WellFormed(r)
    ensures r.success <==>
      authorized("package_update", Get(d, "subject")) && authorized("package_update", Get(d, "object"))
    ensures !r.success ==> r.msg == Some("User " + user + " not authorized to edit these packages")
  {
    CreateAuth(authorized, user, d)
  }

  /** package_relationships_list, reading the keys the list action takes
      (`id`, and `id2` when given): the user may see both named packages. */
  function ListAuth(authorized: Authorizer, user: string, d: DataDict): (r: AuthResult)
    ensures WellFormed(r)
    ensures r.success <==>
      authorized("package_show", Get(d, "id")) &&
      (Truthy(Get(d, "id2")) ==> authorized("package_show", Get(d, "id2")))
  {
    var authorized1 := authorized("package_show", Get(d, "id"));
    var authorized2 := if Truthy(Get(d, "id2")) then authorized("package_show", Get(d, "id2")) else true;
    Decide(authorized1 && authorized2, "User " + user + " not authorized to read these packages")
  }

  /** A caller who may edit only one of the two packages is refused. */
  lemma CreateNeedsBoth(authorized: Authorizer, user: string, d: DataDict)
    requires authorized("package_update", Get(d, "subject")) != authorized("package_update", Get(d, "object"))
    ensures !CreateAuth(authorized, user, d).success
    ensures !DeleteAuth(authorized, user, "", d).success
    ensures !UpdateAuth(authorized, user, d).success
  {
  }

  /** Listing one package alone depends only on seeing that package. */
  lemma ListSinglePackage(authorized: Authorizer, user: string, d: DataDict)
    requires !Truthy(Get(d, "id2"))
    ensures ListAuth(authorized, user, d).success == authorized("package_show", Get(d, "id"))
  {
  }

  // ---------------------------------------------------------------------------
  // The functions as written. auth.py never imports `_`, so every refusal
  // raises NameError while building its message; and the list check reads
  // `subject` and `object` although the list action's data_dict carries `id`
  // and `id2`.

  function CreateAuthAsWritten(authorized: Authorizer, d: DataDict): (r: Result<AuthResult, PyError>)
    ensures r.Failure? <==> !CreateAuth(authorized, "", d).success
    ensures r.Failure? ==> r.error == NameError("_")
  {
    var authorized1 := authorized("package_update", Get(d, "subject"));
    var authorized2 := authorized("package_update", Get(d, "object"));
    if !(authorized1 && authorized2) then Failure(NameError("_")) else Success(AuthResult(true, None))
  }

  /** The delete check as written asks the host for the create decision, and
      the host runs CreateAuthAsWritten: a refusal raises NameError there
      (line 19) before the delete check's own message (line 35, which would
      raise the same) is ever built. */
  function DeleteAuthAsWritten(authorized: Authorizer, d: DataDict): (r: Result<AuthResult, PyError>)
    ensures r.Failure? <==> !DeleteAuth(authorized, "", "", d).success
    ensures r.Failure? ==> r.error == NameError("_")
  {
    match CreateAuthAsWritten(authorized, d)
    case Failure(e) => Failure(e)
    case Success(_) => Success(AuthResult(true, None))
  }

  function ListAuthAsWritten(authorized: Authorizer, d: DataDict): (r: Result<AuthResult, PyError>)
    ensures r.Success? <==>
      authorized("package_show", Get(d, "subject")) &&
      (Truthy(Get(d, "object")) ==> authorized("package_show", Get(d, "object")))
    ensures r.Failure? ==> r.error == NameError("_")
  {
    var authorized1 := authorized("package_show", Get(d, "subject"));
    var authorized2 := if Truthy(Get(d, "object")) then authorized("package_show", Get(d, "object")) else true;
    if !(authorized1 && authorized2) then Failure(NameError("_")) else Success(AuthResult(true, None))
  }

  /** A user who may edit ds-a but not ds-b: as written the create check
      raises NameError; the intended check refuses with a message. */
  lemma CreateAuthDenialCrashes()
    ensures var authorized: Authorizer := (action, id) => id == Some("ds-a");
      var d := map["subject" := "ds-a", "object" := "ds-b"];
      && CreateAuthAsWritten(authorized, d) == Failure(NameError("_"))
      && !CreateAuth(authorized, "u", d).success && CreateAuth(authorized, "u", d).msg.Some?
  {
    var authorized: Authorizer := (action, id) => id == Some("ds-a");
    var d := map["subject" := "ds-a", "object" := "ds-b"];
    assert Get(d, "subject") == Some("ds-a");
    assert Get(d, "object") == Some("ds-b");
  }

  /** As written, the list check asks about no package (`{'id': None}`),
      since a list request carries `id` and `id2`, not `subject` and
      `object`. So whenever the host answers yes to that question, a request
      naming a package the user may not see is let through, which the
      intended check refuses; and whenever the host answers no, every list
      request is refused. The host's answer for a missing id is an
      assumption here, stated as a precondition. */
  lemma ListAuthIgnoresRequestedPackages(authorized: Authorizer, id: string, id2: string)
    requires id2 != ""
    ensures var d := map["id" := id, "id2" := id2];
      && (authorized("package_show", None) && !authorized("package_show", Some(id2)) ==>
            ListAuthAsWritten(authorized, d).Success? && !ListAuth(authorized, "u", d).success)
      && (!authorized("package_show", None) ==> ListAuthAsWritten(authorized, d).Failure?)
  {
    var d := map["id" := id, "id2" := id2];
    assert "subject" !in d && "object" !in d by {
      assert d.Keys == {"id", "id2"};
    }
    assert Get(d, "subject") == None && Get(d, "object") == None;
    assert Get(d, "id2") == Some(id2);
  }

  /** As written, the list decision does not depend on the packages the list
      action names at all. */
  lemma ListAuthAsWrittenIgnoresIds(authorized: Authorizer, d: DataDict, id: string, id2: string)
    requires "subject" !in d && "object" !in d
    ensures ListAuthAsWritten(authorized, d) == ListAuthAsWritten(authorized, d["id" := id]["id2" := id2])
  {
    var d' := d["id" := id]["id2" := id2];
    assert Get(d', "subject") == None && Get(d', "object") == None;
  }
}
