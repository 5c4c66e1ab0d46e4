# ckanext-relationships in Dafny

A model of the core of the CKAN extension `ckanext-relationships`, with proofs. The extension stores typed, directed links between datasets (packages), such as "ds-a child_of ds-b". A link is stored in the forward direction of its type: a request named with a reverse type is stored with the forward type and its packages swapped. For a type that is not its own reverse, the link is therefore stored once, however it is requested. A symmetric type such as sibling_of is stored in the orientation requested, so "a sibling_of b" and "b sibling_of a" are two records. From the object's side it is read with the reverse type ("ds-b parent_of ds-a").

The model covers four parts of the extension:

- **`RelTypes`** (`rel_types.dfy`): the table of (forward, reverse) type pairs and the lists derived from it (forward, reverse, all). It also has the lookups between the two directions, the undirected test, `reverse_type` and the printable templates. `TypeRegistry` is the class that holds the table. It keeps the memoised lists as fields that are filled on first use, and its lookup methods are the same loops as the source's.
- **`RelRecord`** (`rel_record.dfy`): a stored relationship and the two ways it is viewed from one package: `as_tuple` and `as_dict`.
- **`RelAction`** (`rel_action.dfy`): a `RelationshipStore` class over a sequence of records and a set of existing packages, plus a `Context` object. The store has create, update, delete and list, and the comment-update helper. Each method follows the source's branch order, error kinds and commit behaviour, and keeps the invariant that no two active records share a (subject, object, type) triple.
- **`RelAuth`** (`rel_auth.dfy`): the four authorization functions. Each is a boolean combination of the host's per-package permission oracle.

Two support modules sit beside them. `Wrappers` holds `Option` and `Result`. `Host` holds the request dictionary, Python truthiness of an optional string, and the Python errors the as-written members raise.

Some host services are not modelled and become parameters instead:

- The host's validator is the list of errors it would report.
- `check_access` is the decision it would take.
- The permission check `is_authorized_boolean` is a function parameter.
- Commits and rollbacks are ghost counters on the store.

The action outcomes keep the source's asymmetry. A missing subject package raises `NotFound`. A missing object package *returns* a `NotFound` object, which is modelled as `ReturnedError`.

## Model

| member | source | states |
|---|---|---|
| RelTypes.DefaultIsDistinct | ckanext/relationships/model.py:56-72 | The built-in table (child_of/parent_of, sibling_of/sibling_of) names no type in two different pairs, and its printable table has one row per pair. |
| RelTypes.DefaultFacts | ckanext/relationships/model.py:56-72 | For the built-in table: the list of all types is child_of, parent_of, sibling_of, sibling_of. child_of and parent_of are each other's reverse. sibling_of is its own reverse and is undirected, child_of is not. parent_of prints as "is a parent of {}". An unknown name is a TypeError. |
| RelTypes.ForwardTypes | ckanext/relationships/model.py:138-142 | One entry per pair, in table order: that pair's forward name. |
| RelTypes.ReverseTypes | ckanext/relationships/model.py:144-148 | One entry per pair, in table order: that pair's reverse name. |
| RelTypes.AllTypes | ckanext/relationships/model.py:150-157 | Twice as long as the table. Entries 2i and 2i+1 are pair i's forward and reverse names. |
| RelTypes.KnownIffInAllTypes | ckanext/relationships/model.py:150-157 | A name is among all types exactly when some pair mentions it, on either side. |
| RelTypes.AllTypesIsUnion | ckanext/relationships/model.py:138-157 | A name is among all types exactly when it is a forward type or a reverse type. |
| RelTypes.ForwardToReverse | ckanext/relationships/model.py:165-169 | A reverse name found is the reverse side of a pair whose forward side is the name asked for. |
| RelTypes.ReverseToForward | ckanext/relationships/model.py:159-163 | A forward name found is the forward side of a pair whose reverse side is the name asked for. |
| RelTypes.ReverseOf | ckanext/relationships/model.py:178-184 | A name found is paired in the table with the name asked for, on one side or the other. |
| RelTypes.UndirectOf | ckanext/relationships/model.py:171-176 | When defined, the result is the name asked for, and some pair has that name on both sides. |
| RelTypes.PrintableFrom | ckanext/relationships/model.py:186-192 | A template returned sits in the printable row of a pair, from i on, that mentions the name. A TypeError names the name asked for. |
| RelTypes.PrintableOf | ckanext/relationships/model.py:186-192 | A template is returned only for a name in get_all_types. A TypeError names the name asked for. |
| RelTypes.ForwardToReverseFirst | ckanext/relationships/model.py:165-169 | None (Python's fall-through) exactly when no pair has that forward name. Otherwise the reverse name of the first pair that has it. |
| RelTypes.ReverseToForwardFirst | ckanext/relationships/model.py:159-163 | None exactly when no pair has that reverse name. Otherwise the forward name of the first pair that has it. |
| RelTypes.ReverseOfFirst | ckanext/relationships/model.py:178-184 | None exactly when no pair mentions the name. Otherwise the other side of the first pair that mentions it; within a pair the forward side is tested first, so a symmetric pair yields the name itself. |
| RelTypes.UndirectOfSpec | ckanext/relationships/model.py:171-176 | The result is None or the name itself. It is the name exactly when some pair has that name on both sides. |
| RelTypes.ForwardReverseAt | ckanext/relationships/model.py:159-169 | In a table without repeated names, pair i's forward name maps to its reverse name, and back again. |
| RelTypes.ForwardReverseInverse | ckanext/relationships/model.py:159-169 | In a table without repeated names, forward_to_reverse_type and reverse_to_forward_type undo each other wherever they are defined. |
| RelTypes.ReverseOfAt | ckanext/relationships/model.py:178-184 | In a table without repeated names, reverse_type maps pair i's forward name to its reverse name and its reverse name to its forward name. |
| RelTypes.ReverseOfSymmetric | ckanext/relationships/model.py:178-184 | In a table without repeated names, the name of a symmetric pair is its own reverse_type. |
| RelTypes.ReverseOfInvolution | ckanext/relationships/model.py:178-184 | In a table without repeated names, reverse_type is defined on every known type, and applying it twice gives back the type. |
| RelTypes.ReverseOfDefined | ckanext/relationships/model.py:150-184 | For any table, reverse_type is defined exactly on the names in get_all_types. |
| RelTypes.ReverseOfAgrees | ckanext/relationships/model.py:159-184 | In a table without repeated names, reverse_type agrees with forward_to_reverse_type on forward types and with reverse_to_forward_type on reverse types. |
| RelTypes.UndirectIffSelfReverse | ckanext/relationships/model.py:171-184 | In a table without repeated names, is_undirect holds exactly for the known types that are their own reverse. |
| RelTypes.PrintableFromSpec | ckanext/relationships/model.py:186-192 | The scan from pair i on raises TypeError exactly when no pair from i on mentions the name. Otherwise it returns the template in the printable table cell of the first such pair, in the column where the name matched. |
| RelTypes.PrintableOfSpec | ckanext/relationships/model.py:186-192 | make_type_printable raises TypeError exactly for the names outside get_all_types. It never hits an IndexError when the printable table is at least as long as the type table. It returns the cell of the first mentioning pair, forward column first. |
| RelTypes.PrintableAt | ckanext/relationships/model.py:186-192 | With aligned tables and no repeated names, the forward name of pair i prints with its forward template. The reverse name prints with its reverse template, or with the forward template when the pair is symmetric. |
| RelTypes.TypeRegistry.constructor | ckanext/relationships/model.py:56-72 | A registry's type and printable tables are fixed at construction, and no list is memoised yet. |
| RelTypes.TypeRegistry.GetForwardTypes | ckanext/relationships/model.py:138-142 | Returns the forward list and leaves it memoised. The other memos are untouched. A memo, once set, always equals the list built afresh from the table. |
| RelTypes.TypeRegistry.GetReverseTypes | ckanext/relationships/model.py:144-148 | Returns the reverse list and leaves it memoised. The other memos are untouched. |
| RelTypes.TypeRegistry.GetAllTypes | ckanext/relationships/model.py:150-157 | Returns the interleaved list that the append loop builds, and leaves it memoised. The other memos are untouched. |
| RelTypes.TypeRegistry.ReverseToForwardType | ckanext/relationships/model.py:159-163 | The loop returns what the first-match specification of reverse_to_forward_type gives. |
| RelTypes.TypeRegistry.ForwardToReverseType | ckanext/relationships/model.py:165-169 | The loop returns what the first-match specification of forward_to_reverse_type gives. |
| RelTypes.TypeRegistry.IsUndirect | ckanext/relationships/model.py:171-176 | The loop returns what the specification of is_undirect gives. |
| RelTypes.TypeRegistry.ReverseType | ckanext/relationships/model.py:178-184 | The loop returns what the first-mention specification of reverse_type gives. |
| RelTypes.TypeRegistry.MakeTypePrintable | ckanext/relationships/model.py:186-192 | The nested loop over pairs and their two columns returns the template of the first match, or raises TypeError, as PrintableOf states. |
| RelRecord.AsDictAsWritten | ckanext/relationships/model.py:96-102 | As written, as_dict always fails with UnboundLocalError, whether or not a package is given. |
| RelRecord.AsDictAsWrittenNeverReturns | ckanext/relationships/model.py:96-108 | As written, no call of as_dict returns a dictionary, whereas the intended view exists for every record and package. |
| RelRecord.AsDictShape | ckanext/relationships/model.py:88-108 | as_dict reports the record's two packages and its comment. By default it runs subject to object with the stored type. Seen from the object package, the ends swap and the type is reversed. |
| RelRecord.AsTupleMatchesAsDict | ckanext/relationships/model.py:88-126 | From either end of a link between two different packages, the dict's subject is the viewing package, and its (type, object) is exactly what as_tuple returns. |
| RelRecord.AsTuple | ckanext/relationships/model.py:110-126 | as_tuple raises exactly for a package that is neither end, with an error naming that package. From the subject it gives (stored type, object). From the object, when that is not also the subject, it gives (forward_to_reverse_type of the stored type, subject). A self-link therefore reads in its stored direction. |
| RelRecord.AsDict | ckanext/relationships/model.py:88-108 | The intended as_dict reports the record's two packages, in some order, and its comment. Seen from either end, that end is the subject. |
| RelRecord.ReverseViewRoundTrip | ckanext/relationships/model.py:110-126 | A link stored with a forward type reads from its object as the pair's reverse type, in both views, and reverse_to_forward_type of that recovers the stored type. |
| RelAuth.CreateAuth | ckanext/relationships/logic/auth.py:4-22 | Succeeds exactly when the user may update both the subject and the object. A refusal, and only a refusal, carries the "not authorized to edit these packages" message. |
| RelAuth.DeleteAuth | ckanext/relationships/logic/auth.py:25-38 | Succeeds exactly when the create check succeeds on the same request. A refusal, and only a refusal, carries a message. |
| RelAuth.Decide | ckanext/relationships/logic/auth.py:16-22 | The shape every check returns: success is the decision, and a message is present exactly on a refusal. |
| RelAuth.UpdateAuth | ckanext/relationships/logic/auth.py:65-66 | Well formed, and succeeds exactly when the user may update both the subject and the object, as the create check it delegates to. A refusal carries the create check's message. |
| RelAuth.ListAuth | ckanext/relationships/logic/auth.py:41-62 | Succeeds exactly when the user may see `id` and, if `id2` is truthy, also `id2`. Refusals carry a message. |
| RelAuth.CreateNeedsBoth | ckanext/relationships/logic/auth.py:4-38 | A user who may edit only one of the two packages is refused by the create, delete and update checks. |
| RelAuth.ListSinglePackage | ckanext/relationships/logic/auth.py:41-62 | Without a second package, the list decision is just the permission to see the first package. |
| RelAuth.CreateAuthAsWritten | ckanext/relationships/logic/auth.py:4-22 | As written, the check raises NameError (for `_`) exactly when the intended check refuses. Otherwise it does not raise. |
| RelAuth.DeleteAuthAsWritten | ckanext/relationships/logic/auth.py:25-38 | As written, the delete check raises NameError (for `_`) exactly when the intended delete check refuses. It is raised inside the create check it asks for (line 19), before the delete check's own message at line 35 would raise the same. |
| RelAuth.ListAuthAsWritten | ckanext/relationships/logic/auth.py:41-62 | As written, the list check passes exactly when the user may see `subject` and, if `object` is truthy, also `object`. It raises NameError on a refusal. |
| RelAuth.CreateAuthDenialCrashes | ckanext/relationships/logic/auth.py:16-20 | A user who may edit ds-a but not ds-b makes the as-written create check raise NameError, whereas the intended check refuses with a message. |
| RelAuth.ListAuthIgnoresRequestedPackages | ckanext/relationships/logic/auth.py:44-52 | As written, a list request {id, id2} is decided by the permission for no package at all. When the host grants that, a user who may not see `id2` passes, whereas the intended check refuses. When the host refuses it, every list request is refused. |
| RelAuth.ListAuthAsWrittenIgnoresIds | ckanext/relationships/logic/auth.py:44-45 | As written, changing the `id` and `id2` of a list request never changes the decision. |
| RelAction.HasTriple | ckanext/relationships/logic/action.py:43 | `_get_or_bust(data_dict, ['subject', 'object', 'type'])` succeeds exactly when all three keys are present. |
| RelAction.CommentOf | ckanext/relationships/logic/action.py:44 | The comment is the request's `comment` when given, and the empty string otherwise. |
| RelAction.Orient | ckanext/relationships/logic/action.py:61-66 | The triple a request is stored and found under: for a known type, always a forward type. It is the request itself, or the request with its two packages swapped. |
| RelAction.RequestKey | ckanext/relationships/logic/action.py:61-66 | The key a request is looked up and stored under: a forward type whenever the requested type is known, between the same two packages as the request. |
| RelAction.OrientReadsBack | ckanext/relationships/logic/action.py:61-71 | In a table without repeated names, the record stored for a request between two different packages, seen from the request's subject, reads back as exactly the requested type, object and comment. |
| RelAction.OrientParentOf | ckanext/relationships/logic/action.py:61-66 | With the built-in table, "b parent_of a" is stored and found as "a child_of b". |
| RelAction.FindActiveFrom | ckanext/relationships/logic/action.py:61-62 | The scan from position i: the first active match from i on, and None exactly when there is none from i on. |
| RelAction.FindActive | ckanext/relationships/logic/action.py:61-62 | The index of `existing_rels[0]`: an active record with exactly that subject, object and stored type, with no earlier one. None exactly when no record matches. |
| RelAction.MatchIsUnique | ckanext/relationships/logic/action.py:61-65 | While the store keeps triples unique, the record found is the only active match. |
| RelAction.AppendKeepsUnique | ckanext/relationships/logic/action.py:61-68 | Adding a triple that has no active match keeps triples unique, and the new record is the one found afterwards. |
| RelAction.CommentKeepsMatches | ckanext/relationships/logic/action.py:166-174 | Changing a comment keeps triples unique and changes no triple's match. |
| RelAction.DeleteClearsMatch | ckanext/relationships/logic/action.py:101-112 | Soft-deleting the found record keeps triples unique and leaves its triple with no active match. |
| RelAction.PackageGate | ckanext/relationships/logic/action.py:43-51 | No early exit exactly when all three keys are present and both packages exist. An exit is never a success. It is NotFound exactly when the keys are all there, and it is returned rather than raised exactly when only the object is missing. |
| RelAction.WriteGate | ckanext/relationships/logic/action.py:43-58 | No early exit exactly when the package tests pass, validation reports no error and access is granted. The package tests come first, and an exit is never a success. |
| RelAction.WriteAsWritten | ckanext/relationships/logic/action.py:35-56 | As written, create and update come back only with the outcomes of the package tests. Every other path raises NameError: `_validate`, or before it `ckan` in the schema for create and `schema_` for update. No request reaches the store. |
| RelAction.WriteAsWrittenNeverStores | ckanext/relationships/logic/action.py:43-58 | A well-formed request between two existing packages raises NameError as written, yet passes every gate of the intended create. |
| RelAction.SecondPackage | ckanext/relationships/logic/action.py:134-143 | A second package exactly when `id2` is present and non-empty, and then it is `id2`. |
| RelAction.TypeFilter | ckanext/relationships/logic/action.py:135-147 | A filter only when `rel` is given, and then it is `rel`. No filter exactly when `rel` is absent, empty, or `relationships`. |
| RelAction.ListMatch | ckanext/relationships/logic/action.py:153 | A record the query yields for p1 has p1 as its subject when seen from p1. |
| RelAction.Query | ckanext/relationships/logic/action.py:153 | The records listed are exactly the store's active records that touch the first package, that have the second package at the other end when one is given, and that show the requested type from the first package when one is given. |
| RelAction.QueryCounts | ckanext/relationships/logic/action.py:153-161 | The query holds each matching record exactly as often as the store does, and no other record, so the list has one dict per matching relationship. |
| RelAction.QueryNone | ckanext/relationships/logic/action.py:153 | A query no record matches is empty. |
| RelAction.QuerySingle | ckanext/relationships/logic/action.py:153 | A query exactly one record matches lists that record alone. |
| RelAction.ListMatchIsKey | ckanext/relationships/logic/action.py:153 | In a table without repeated names, a forward-typed record listed for subject s, second package o and a non-symmetric type ty is the record stored under the key of the request (s, o, ty). |
| RelAction.ListOneForKey | ckanext/relationships/logic/action.py:61-161 | While every record is stored forward and triples are unique, listing a request's subject filtered by its object and its non-symmetric type gives exactly one dict when the key has an active record: the request with that record's comment. |
| RelAction.Views | ckanext/relationships/logic/action.py:159-161 | One dict per listed record, in order, each being that record seen from the first package. |
| RelAction.ListedFromPrimary | ckanext/relationships/logic/action.py:153-163 | Every listed dict has the first package as its subject, the second package as its object when one was named, and the filter as its type when one was given. |
| RelAction.UnfilteredListShows | ckanext/relationships/logic/action.py:153-163 | Every active record touching a package appears in that package's unfiltered list. From its object package it appears with its ends swapped and its reverse type. |
| RelAction.Context.constructor | ckanext/relationships/logic/action.py:66-68 | A context carries the caller's `defer_commit` flag and no `relationship` entry yet. |
| RelAction.RelationshipStore.constructor | ckanext/relationships/model.py:28-37 | The relationship table starts empty, with the given type table and packages, and the store invariant holds. |
| RelAction.RelationshipStore.UpdateComment | ckanext/relationships/logic/action.py:166-177 | Only that record's comment becomes the new value. A commit happens exactly when the comment changed and commits are not deferred. The result is the record seen from its subject. |
| RelAction.RelationshipStore.Create | ckanext/relationships/logic/action.py:14-71 | The request is looked up and stored under its forward-oriented triple (Orient), so a reverse-typed request never stores a second copy of a link. Checks run in the source's order. A missing key raises ValidationError; a missing subject raises NotFound; a missing object returns NotFound; validation errors roll back and raise ValidationError; refused access raises NotAuthorized. In all of these the store and the context stay unchanged. An existing active triple only gets its comment updated, and the context is left alone. Otherwise exactly one active record is appended, committed unless deferred, recorded in the context, and returned subject-to-object. Triples stay unique. |
| RelAction.RelationshipStore.Update | ckanext/relationships/logic/action.py:180-231 | The same gates as create, then NotFound when no active record has that triple. Otherwise the context names the record and only its comment changes, with a commit when it changed and commits are not deferred. |
| RelAction.RelationshipStore.Delete | ckanext/relationships/logic/action.py:74-112 | The package gates, then NotFound when nothing matches. The context names the found record before the access check. A refusal then leaves the store unchanged. Otherwise that one record becomes deleted, the change is committed even when commits are deferred, and its triple has no active match left. |
| RelAction.RelationshipStore.List | ckanext/relationships/logic/action.py:115-163 | A missing `id` raises ValidationError. An unknown first package, or an unknown truthy `id2`, raises NotFound. Refused access raises NotAuthorized. A type filter that matches nothing raises NotFound. Otherwise the result is the views, from the first package, of the query's records. Both loops are proved against Query and Views. |
| RelAction.CreateParentOf | ckanext/relationships/logic/action.py:61-64 | "b parent_of a", asked of a store holding "a child_of b", only changes that record's comment and returns it subject-to-object. No second record is stored. |
| RelAction.DeleteTwice | ckanext/relationships/logic/action.py:101-112 | After a delete succeeds, deleting the same triple again raises NotFound. |
| RelAction.CreateTwice | ckanext/relationships/logic/action.py:61-68 | Creating the same triple twice adds at most one record. The second create succeeds without adding one. Afterwards the key has an active record carrying the request's comment, and the store invariant holds. |
| RelAction.CreateTwiceListsOnce | ckanext/relationships/logic/action.py:14-163 | After creating the same request twice, listing its subject with `id2` its object and `rel` its type returns exactly one dict: the request itself, with its comment. |
| RelAction.ChildOfListedFromParent | ckanext/relationships/logic/action.py:153-161 | With the built-in table, the single link a child_of b lists from b as one parent_of dict with a as its object. |
| RelAction.ListSingleChildOf | ckanext/relationships/logic/action.py:115-163 | A store holding just the link a child_of b returns that single parent_of dict for the list of b. |
| RelAction.CreateChildOf | ckanext/relationships/logic/action.py:14-71 | Creating a child_of b on an empty store returns the subject-to-object dict and stores exactly one record. The list of b then shows it as parent_of. |
| RelAction.UpdateChildOf | ckanext/relationships/logic/action.py:180-231 | Updating that link's comment keeps exactly one record, and the list of b shows the new comment. |
| RelAction.ChildOfScenario | ckanext/relationships/logic/action.py:14-231 | Create a child_of b with comment c1, then update the comment to c2. The list of b reads parent_of a with c1, then with c2, and holds one dict both times. |

## Left out

- `views.py`, `plugin.py`, `cli.py` and `interfaces.py` are not part of this model. They hold the web views, the plugin registration, the command line and the plugin interface.
- TypeRegistry: the loops that let plugins replace the tables (`model.py:60-61`, `model.py:74-75`) are not modelled. The registry takes its tables as constructor arguments. The second loop assigns the printable templates to `types`, which looks like a slip; with no plugin installed it does nothing.
- TypeRegistry: the source memoises on the class, is shared process-wide, and never refreshes a memo once set. The model's memos belong to one registry, whose tables never change.
- RelTypes.PrintableOfSpec: the template is returned unformatted, as in the source. Filling `{}` with the other package is the caller's business.
- The API version's `ref_package_by` (`id` or `name`) is not modelled. A package is one identifier, and views carry that identifier.
- The ORM session: commits and rollbacks are counted, not simulated. The model does not capture that a rollback also discards comment writes left uncommitted by `defer_commit`.
- `_validate` is modelled as the list of errors it would report. The only validator property the store relies on is that a request that passes names a type of the table (`schema.py:20-21`). The create schema also tests that both packages exist, which the action's own package tests already decide, and that `id` is empty (`schema.py:31`). No package test covers that last check. The model represents it only through the errors list, which may report anything, so no member states that a request with an `id` fails validation.
- `check_access` is modelled as the decision it would take. The model does not tie that decision to `RelAuth`, because the host routes it through its auth registry and sysadmin shortcuts.
- RelAction.Query: the host's `get_relationships(with_package, type)` is not visible here. The model states its result as the active records touching the first package that match the second package and the type as seen from the first package, in store order.
- Exceptions are modelled by kind only (NotFound, ValidationError, NotAuthorized). Their messages, and the NotFound message of `delete` naming the triple, are left out.
- The generated relationship id, `__str__`/`__repr__`, `by_subject`/`by_object` and `create_tables`/`drop_tables` are left out. They are storage plumbing or display.
- RelAuth.DeleteAuth: the relationship id in the refusal message is a parameter, because records carry no id in this model.
- RelRecord.AsTupleMatchesAsDict: requires two different ends. For a self-link the intended `as_dict` swaps the ends and reverses the type, since the package equals the object, while `as_tuple` takes its subject branch. The two views then differ.
- RelAction.Orient: the host's `get_relationships_with` and `add_relationship` are not visible here. The model takes them to look up and store a request under its forward-oriented triple. A symmetric type is matched only in the orientation in which it was stored, so a symmetric link requested once each way round is stored twice, and the list of either end shows it twice.
- RelAction.CreateTwiceListsOnce: requires a type that is not its own reverse, because a symmetric link can be stored both ways round (see the line above). It also requires a non-empty object and a type other than `''` and `relationships`, because for those the list action applies no second-package or type filter.
- RelAction.Query: store order is fixed by its definition, a filter of the records in order, and is not restated as an ensures. The List method is proved equal to it.
- RelAction.RelationshipStore.Create: the schema is assumed to come from the context. Building the default schema fails as written (see Findings).

## Findings

| source | as written | input that shows it | evidently intended | confidence | as-written member | corrected member |
|---|---|---|---|---|---|---|
| ckanext/relationships/model.py:96-102 | `as_dict` reads `object_pkg` (with a package) or `subject_pkg` (without one) before either is assigned | any relationship: `as_dict()` or `as_dict(pkg)` raises UnboundLocalError | start from subject = `self.subject`, object = `self.object`, and swap them and reverse the type when the package is the object | high; not executed | RelRecord.AsDictAsWritten | RelRecord.AsDict |
| ckanext/relationships/logic/auth.py:44-45 | the list check reads `subject` and `object`, but the list action's request carries `id` and `id2` | the decision never reads `id` or `id2`: it always asks about no package. If the host grants that, {id: ds-a, id2: ds-b} from a user who may not see ds-b passes; if it refuses, every list request is refused | check permission to see `id` and, when given, `id2` | high; not executed | RelAuth.ListAuthAsWritten | RelAuth.ListAuth |
| ckanext/relationships/logic/auth.py:16-20 | `_` is never imported in auth.py, so building any refusal message raises NameError (lines 19, 35 and 59) | create check for a user who may edit ds-a but not ds-b; delete check for a user refused create on the request | return `{success: False, msg: ...}` | high; not executed | RelAuth.CreateAuthAsWritten, RelAuth.DeleteAuthAsWritten | RelAuth.CreateAuth, RelAuth.DeleteAuth |
| ckanext/relationships/logic/action.py:53 | `_validate` is never defined or imported in action.py, and update reads the unbound `schema_` at line 207 | {subject: a, object: b, type: child_of} with both packages existing raises NameError | validate with the host's validator and go on to the store | high; not executed | RelAction.WriteAsWritten | RelAction.RelationshipStore.Create |
