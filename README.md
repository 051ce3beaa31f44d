# Person resource of zou, modelled in Dafny

This project models the person endpoints of zou, a production-tracking web
service. The endpoints are `PersonsResource` (the `/people` collection) and
`PersonResource` (one person), both in `zou/app/blueprints/crud/person.py`.
The model covers:

- the authorization gates for update and delete;
- the field filter a non-admin's update would go through;
- the resolution of department ids into departments;
- the two validation rules that run before an update: the user limit and the protected accounts;
- the serialization level a listing and a detail view use;
- the order of the side effects that `post_update`, `post_delete` and `delete` issue.

Files:

- `outcomes.dfy` (module `Outcomes`): the exceptions the resource raises or
  lets through, plus `Result` and `Option`.
- `py_model.dfy` (module `PyModel`): the part of Python the code relies on:
  - JSON-like values;
  - truthiness;
  - `dict.get`;
  - what a `for` loop iterates over;
  - `Dict`, a class for a dictionary that is changed in place (`pop`, item assignment).
- `services.dfy` (module `Services`): `ServiceLog`, an ordered record of the
  collaborator calls that returned, with the set of calls that raise: `clear_person_cache`, `remove_person_index`,
  `index_person`, `remove_person`, `emit_delete_event` and
  `create_access_token_for_raw_person`.
- `person_rules.dfy` (module `PersonRules`): the rules that only compute.
  These are the permission gates, `pre_update`, the field filter's result,
  department resolution as a specification function, and the view levels.
- `person_resource.dfy` (module `PersonResource`): the steps that change
  things. These are the pops of the field filter, the department-resolving
  `update_data` with its loop, `post_update`, `post_delete` and `delete`.
  Each method is proved equal to a specification function, and the lemmas
  are about those functions.

Whatever the resource asks its environment is an input of the model:

- the current user's id and the answers of `has_admin_permissions`,
  `has_manager_permissions` and `has_person_permissions` (`PersonRules.Caller`);
- whether the user limit is reached;
- the set of protected account emails;
- what `Department.get` answers for each id: a department, None, or a StatementError;
- the `active` column of the row `get_person_raw` loads;
- the person `get_model_or_404` finds, as `serialize()` renders it;
- the token string the JWT library mints;
- which collaborator calls raise instead of returning (`ServiceLog.raises`).

Points of the code the model keeps as they are:

- `update_data` is defined twice in `PersonResource`. Python binds the second
  definition (line 163), so the field filter at lines 73-88 is never called.
  - The filter is modelled on its own (`FilterUpdateFields`, `FilteredUpdateFields`).
  - The `update_data` that does run is `UpdateData`, the department resolver.
  - See "## Findings".
- The filter pops the key `login_failed_attemps`, spelled as the code spells
  it. A key spelled `login_failed_attempts` passes through the filter.
- An id that `Department.get` resolves to None is skipped; only a
  StatementError raises `DepartmentNotFoundException`.
- `pre_update` tests for `active` in two different ways:
  - the user-limit rule tests truthiness (`data.get("active", False)`);
  - the protected-account rule tests identity with False (`data.get("active") is False`).

  So the two rules can never both apply, and the order in which they are
  tested cannot be observed. `PreUpdateRulesExclusive` states this.

## Model

| member | source | states |
|---|---|---|
| `PersonRules.ListViewLevel` | zou/app/blueprints/crud/person.py:36-51 | full serialization exactly for an admin who asks for the password hash, safe for any other admin, minimal exactly for non-admins |
| `PersonRules.AllEntries` | zou/app/blueprints/crud/person.py:32-51 | the listing has one entry per person of the query (of the whole table when no query is given), in query order, all at the caller's level and relations flag; a non-admin only ever gets minimal entries |
| `PersonRules.DetailViewLevel` | zou/app/blueprints/crud/person.py:118-122 | a single person is never shown with the password hash; managers get the safe view, everyone else the minimal one |
| `PersonRules.CheckUpdatePermissions` | zou/app/blueprints/crud/person.py:68-71 | an update passes exactly when the target is the caller or the caller is an admin, and then the instance dict comes back unchanged; otherwise PermissionDenied; a dict without an id is a KeyError |
| `PersonRules.CheckDeletePermissions` | zou/app/blueprints/crud/person.py:90-94 | self-deletion is PermissionDenied whatever the caller's rights; deleting anyone else passes exactly for admins, with the dict unchanged |
| `PersonRules.DeleteGateStricterThanUpdate` | zou/app/blueprints/crud/person.py:68-94 | anyone allowed to delete a person may also update them; for the person themself, update passes and delete fails |
| `PersonRules.FilteredUpdateFields` | zou/app/blueprints/crud/person.py:73-88 | admin data is returned unchanged; for a non-admin, none of the ten locked keys remains and every other key except expiration_date keeps its value; expiration_date survives exactly for admins and holders of person rights; the correctly spelled login_failed_attempts is not removed |
| `PersonResource.FilterUpdateFields` | zou/app/blueprints/crud/person.py:73-88 | the successive pops leave the dict equal to the filtered map above |
| `PersonResource.FilteredBySuccessivePops` | zou/app/blueprints/crud/person.py:75-87 | for a non-admin, the filtered map is the data minus expiration_date (without person rights) and then minus each locked key in turn |
| `PersonRules.PreUpdate` | zou/app/blueprints/crud/person.py:124-140 | WrongParameter "User limit reached." exactly when an inactive non-bot is being activated while the limit is reached; PersonInProtectedAccounts exactly when that rule did not fire, active is set to False itself, and the email is protected; otherwise data comes back unchanged, except that a missing email raises KeyError when active is set to False |
| `PersonRules.PreUpdateRulesExclusive` | zou/app/blueprints/crud/person.py:125-136 | an update is never both an activation and a deactivation, so the two rules never compete |
| `PersonRules.PreUpdateIgnoresOtherFields` | zou/app/blueprints/crud/person.py:124-140 | an update that does not mention active always passes and comes back unchanged |
| `PersonRules.ResolvedDepartments` | zou/app/blueprints/crud/person.py:165-174 | resolution succeeds exactly when no id meets a StatementError, fails only with DepartmentNotFound, and returns at most one department per id |
| `PersonResource.ResolveDepartments` | zou/app/blueprints/crud/person.py:166-173 | the lookup loop computes exactly the resolution above |
| `PersonRules.ResolvedConcat` | zou/app/blueprints/crud/person.py:167-171 | resolving a concatenation of id lists is resolving each list and concatenating, so the input order is kept |
| `PersonRules.AbsentIdSkipped` | zou/app/blueprints/crud/person.py:169-171 | an id that resolves to None can be dropped from the input without changing the result |
| `PersonRules.ResolvedMembership` | zou/app/blueprints/crud/person.py:168-171 | a department is in the result exactly when some input id resolves to it |
| `PersonRules.ResolvedAllFound` | zou/app/blueprints/crud/person.py:168-171 | when every id exists, the result has one department per id, in order |
| `PersonRules.UpdatedData` | zou/app/blueprints/crud/person.py:163-175 | data without departments is untouched; otherwise the value is iterated and resolved, and on success departments is replaced by the resolved departments, with every other key unchanged; the only errors are TypeError (value not iterable) and DepartmentNotFound |
| `PersonResource.UpdateData` | zou/app/blueprints/crud/person.py:163-175 | the dict ends up as the map above on success, or unchanged, with that error reported, on failure |
| `PersonRules.ShadowedFilterKeepsLockedFields` | zou/app/blueprints/crud/person.py:163-175 | the bound update_data keeps every locked field other than departments, which the unbound filter would have removed |
| `PersonRules.ShadowedFilterRoleExample` | zou/app/blueprints/crud/person.py:163 | a non-admin's `{"role": "admin"}` passes the bound update_data unchanged, whereas the filter would empty it |
| `PersonRules.IntendedUpdatedData` | zou/app/blueprints/crud/person.py:73-175 | filter then resolve: a non-admin's update keeps no locked key, and an admin's is the department resolution |
| `PersonResource.PostUpdateResult` | zou/app/blueprints/crud/person.py:148-156 | the returned dict holds the instance's department ids in order (`DepartmentIds`), an access_token equal to the minted token exactly when expiration_date was part of the update, and every other entry unchanged |
| `PersonResource.PostUpdate` | zou/app/blueprints/crud/person.py:142-157 | the planned calls (`PostUpdateEvents`) are cache-clear, index-remove, index-add when the stored row is active, and token-mint when expiration_date was updated; the log grows by exactly the planned calls before the first one that raises; when none raises, the dict becomes `PostUpdateResult`, with the department ids of `DepartmentIds`, and a dict without id stops with KeyError after the cache clear; when one raises, the error propagates and the dict keeps only what was written before it (the department ids when the token mint raises) |
| `PersonResource.PostUpdateClearsCacheOnce` | zou/app/blueprints/crud/person.py:143-156 | post_update clears the person cache first and exactly once |
| `PersonResource.PostUpdateIndexesActiveOnly` | zou/app/blueprints/crud/person.py:144-156 | the person is removed from the index exactly once, right after the cache clear, and re-indexed (next) exactly when active; a token is minted exactly when expiration_date was updated |
| `PersonResource.PostDelete` | zou/app/blueprints/crud/person.py:159-161 | post_delete logs one cache clear and returns the dict it was given; if clearing the cache raises, nothing is logged and the error propagates |
| `PersonResource.DeleteOutcome` | zou/app/blueprints/crud/person.py:183-187 | the verdict before any side effect: a missing person is NotFound; self-deletion and a non-admin caller are PermissionDenied; a pass means the calls are issued, answering an empty body with status 204 if none raises |
| `PersonResource.Delete` | zou/app/blueprints/crud/person.py:178-192 | when DeleteOutcome refuses, delete answers that error and logs nothing; otherwise it issues the calls of `DeleteEvents`, which are cascade-remove(id, force), index-remove(id), delete-event(person dict) and cache-clear; the log grows by exactly those before the first one that raises, and the answer is ("", 204) when none raises and the propagated error otherwise |
| `PersonResource.DeleteEventsOrder` | zou/app/blueprints/crud/person.py:188-191 | a successful delete cascades first and clears the cache last, clears the cache and removes the index entry exactly once each, and never re-indexes or mints a token |
| `PersonResource.RefusedCascadeLogsNothing` | zou/app/blueprints/crud/person.py:188 | when the deletion service refuses the cascade (a non-forced delete it rejects), the delete leaves nothing in the log |
| `Services.Completed` | zou/app/blueprints/crud/person.py:143-156 | an exception stops the straight-line sequence of service calls: the calls before the first one that raises all return, and that call does not |
| `Services.CompletedAll` | zou/app/blueprints/crud/person.py:188-191 | every planned call completes exactly when none of them raises |
| `PyModel.Iterate` | zou/app/blueprints/crud/person.py:168 | a for loop visits a list's items or a string's characters; any other value raises TypeError |

## Left out

- `PersonResource.get` (lines 96-116): this is Flask and JWT plumbing. It covers the bool parameter `relations`, `get_model_or_404`, turning a StatementError into 400 and a ValueError into 404. Only its serialization choice is modelled (`DetailViewLevel`).
- `PersonsResource.post` (lines 53-54) always aborts with 405. This is framework plumbing with no decision in it.
- `check_read_permissions` on both resources (lines 56-57, 65-66) always returns True. There is nothing to state.
- `@jwt_required`, `get_bool_parameter` and `get_force`: the flags they read (`with_pass_hash`, `relations`, `force`) are inputs.
- `PersonResource.__init__` adds `password` and `jti` to `protected_fields`. The base class that uses that list is not part of this model.
- The base classes `BaseModelsResource` and `BaseModelResource` are not part of this model. A method they drive is not composed into one update request:
  - the order in which they call `check_update_permissions`, `update_data`, `pre_update` and `post_update`;
  - applying the update to the row;
  - `pre_delete` (taken as a no-op hook);
  - `emit_delete_event` (recorded as one event).
- `super().update_data` is taken as returning `data` unchanged.
- `permissions.check_admin_permissions` is taken as raising PermissionDenied exactly when `has_admin_permissions()` is false. The permissions module is not part of this model.
- The ORM serializers `serialize`, `serialize_safe` and `present_minimal`: a listing entry records the level it is rendered at, not the rendered fields.
- `persons_service.get_person_raw` is taken to find the row. Only its `active` column is an input. The case where it raises because the row vanished is not modelled.
- A collaborator call that raises (in `ServiceLog.raises`) is not recorded in the log. Anything it did before raising is not modelled. `Department.get` is taken to raise only StatementError.
- `is_user_limit_reached` is a boolean input. Because Python evaluates `and` lazily, it is called only when the earlier conditions hold. This has no observable effect here.
- Python values not needed by the resource are not in `PyModel.Value`: floats, dicts as values, and other iterables.
- Consistency of the cache and the index after a crash between the commit and the side effects: this is operational, not code behaviour.
- `tests/services/test_persons_service.py` is a database-backed test of `persons_service`, whose source is not part of this model.
- The Alembic migration `zou/migrations/versions/addbad59c706_allow_to_manage_drawings_instead_of_.py` is schema tooling with no behaviour to verify.

## Findings

| source | as written | input that shows it | evidently intended | confidence | as-written member | corrected member |
|---|---|---|---|---|---|---|
| zou/app/blueprints/crud/person.py:163 | a second `update_data` replaces the first one (lines 73-88), so a non-admin's update keeps role, active, is_bot, archived and the other locked fields | a non-admin caller sends `{"role": "admin"}`; the bound `update_data` returns it unchanged | filter the caller's fields first, then resolve departments | not executed; certain by Python's class-body rebinding (the filter at lines 73-88 would otherwise be dead code) | `PersonRules.ShadowedFilterRoleExample` | `PersonRules.IntendedUpdatedData` |

`PersonResource.UpdateData` still models the definition Python binds,
because that is what the resource runs. `IntendedUpdatedData` states what
composing the two definitions would guarantee.
