/** The steps of PersonResource that change things: the field filter and the
    department resolver (the two update_data definitions), post_update,
    post_delete and delete. Dictionaries they mutate are PyModel.Dict objects;
    the service calls they issue are appended to a Services.ServiceLog. */
module PersonResource {
  import opened Outcomes
  import opened PyModel
  import opened Services
  import opened PersonRules

  // ---------------------------------------------------------------------
  // update_data, first definition: the non-admin field filter. The class
  // defines update_data again further down, and that later definition is
  // the one bound on the class, so nothing in the resource calls this one.
  // ---------------------------------------------------------------------

  /** Pops, one after another, every key the caller may not write. The base
      class's update_data returns `data` itself and is not modelled further. */
  method FilterUpdateFields(data: Dict, caller: Caller)
    modifies data
    ensures data.entries == FilteredUpdateFields(old(data.entries), caller.isAdmin, caller.hasPersonPermissions)
  {
    ghost var original := data.entries;
    if !caller.isAdmin {
      if !caller.hasPersonPermissions {
        var _ := data.Pop("expiration_date");
      }
      var _ := data.Pop("role");
      var _ := data.Pop("departments");
      var _ := data.Pop("active");
      var _ := data.Pop("is_bot");
      var _ := data.Pop("archived");
      var _ := data.Pop("login_failed_attemps");
      var _ := data.Pop("last_login_failed");
      var _ := data.Pop("is_generated_from_ldap");
      var _ := data.Pop("ldap_uid");
      var _ := data.Pop("last_presence");
      FilteredBySuccessivePops(original, caller.hasPersonPermissions);
    }
  }

  /** For a non-admin, the filter's result is what the successive pops leave. */
  lemma FilteredBySuccessivePops(data: map<string, Value>, hasPersonPermissions: bool)
    ensures FilteredUpdateFields(data, false, hasPersonPermissions) ==
              (if hasPersonPermissions then data else data - {"expiration_date"})
              - {"role"} - {"departments"} - {"active"} - {"is_bot"} - {"archived"}
              - {"login_failed_attemps"} - {"last_login_failed"} - {"is_generated_from_ldap"}
              - {"ldap_uid"} - {"last_presence"}
  { }

  // ---------------------------------------------------------------------
  // update_data, second definition: department resolution
  // ---------------------------------------------------------------------

  /** The try block of update_data: looks every id up with Department.get,
      keeps the departments found, skips the ids that resolve to None, and
      turns a StatementError into DepartmentNotFoundException. */
  method ResolveDepartments(ids: seq<Value>, lookup: Value -> DepartmentLookup) returns (r: Result<seq<Department>>)
    ensures r == ResolvedDepartments(ids, lookup)
  {
    var departments: seq<Department> := [];
    var i := 0;
    while i < |ids|
      invariant 0 <= i <= |ids|
      invariant ResolvedDepartments(ids[..i], lookup) == Ok(departments)
    {
      assert ids[..i + 1][..i] == ids[..i];
      match lookup(ids[i]) {
        case StatementError =>
          return Err(DepartmentNotFound);
        case Absent =>
        case Found(d) =>
          departments := departments + [d];
      }
      i := i + 1;
    }
    assert ids[..i] == ids;
    r := Ok(departments);
  }

  /** The update_data bound on the class: when `departments` is present, it is
      replaced by the departments its ids resolve to; on an error `data` is
      left as it was. */
  method UpdateData(data: Dict, lookup: Value -> DepartmentLookup) returns (failure: Option<Error>)
    modifies data
    ensures UpdatedData(old(data.entries), lookup).Ok? ==>
              failure == None && data.entries == UpdatedData(old(data.entries), lookup).value
    ensures UpdatedData(old(data.entries), lookup).Err? ==>
              failure == Some(UpdatedData(old(data.entries), lookup).error) && data.entries == old(data.entries)
  {
    if "departments" in data.entries {
      var ids := Iterate(data.entries["departments"]);
      if ids.Err? {
        return Some(ids.error);
      }
      var departments := ResolveDepartments(ids.value, lookup);
      if departments.Err? {
        return Some(departments.error);
      }
      data.Put("departments", List(DepartmentRefs(departments.value)));
    }
    return None;
  }

  // ---------------------------------------------------------------------
  // post_update
  // ---------------------------------------------------------------------

  /** `[str(department.id) for department in instance.departments]` */
  function DepartmentIds(ds: seq<Department>): seq<Value> {
    seq(|ds|, i requires 0 <= i < |ds| => Str(ds[i].id))
  }

  /** The service calls post_update issues, in order. An instance dict without
      an id stops it with a KeyError right after the cache is cleared. */
  function PostUpdateEvents(instanceDict: map<string, Value>, data: map<string, Value>,
                            instance: PersonRow, storedActive: bool): seq<Event>
  {
    if "id" !in instanceDict then [CacheCleared]
    else
      var id := instanceDict["id"];
      [CacheCleared, IndexRemoved(id)]
      + (if storedActive then [IndexAdded(id)] else [])
      + (if "expiration_date" in data then [TokenMinted(instance.id)] else [])
  }

  /** The instance dict post_update returns: the current department ids, and a
      fresh access token exactly when the update named `expiration_date`. */
  function PostUpdateResult(instanceDict: map<string, Value>, data: map<string, Value>,
                            instance: PersonRow, minted: string): (r: map<string, Value>)
    ensures r.Keys == instanceDict.Keys + {"departments"}
                      + (if "expiration_date" in data then {"access_token"} else {})
    ensures r["departments"] == List(DepartmentIds(instance.departments))
    ensures "expiration_date" in data ==> r["access_token"] == Str(minted)
    ensures "expiration_date" !in data && "access_token" in instanceDict ==>
              r["access_token"] == instanceDict["access_token"]
    ensures forall k :: k in instanceDict && k != "departments" && k != "access_token" ==>
              r[k] == instanceDict[k]
  {
    var withDepartments := instanceDict["departments" := List(DepartmentIds(instance.departments))];
    if "expiration_date" in data then withDepartments["access_token" := Str(minted)]
    else withDepartments
  }

  /** post_update. `instance` is the row the update was applied to;
      `storedActive` is the `active` column of the row persons_service.get_person_raw
      loads for the instance's id; `minted` is the token string the JWT
      library would produce. A service call that raises stops it: the calls
      before it stay logged, and the departments already written stay written. */
  method PostUpdate(svc: ServiceLog, instanceDict: Dict, data: map<string, Value>,
                    instance: PersonRow, storedActive: bool, minted: string) returns (failure: Option<Error>)
    modifies svc, instanceDict
    ensures var planned := PostUpdateEvents(old(instanceDict.entries), data, instance, storedActive);
            svc.events == old(svc.events) + planned[..Completed(planned, svc.raises)]
    ensures var planned := PostUpdateEvents(old(instanceDict.entries), data, instance, storedActive);
            var n := Completed(planned, svc.raises);
            n < |planned| ==>
              failure == Some(ServiceRaised)
              && instanceDict.entries ==
                   if planned[n].TokenMinted?
                   then old(instanceDict.entries)["departments" := List(DepartmentIds(instance.departments))]
                   else old(instanceDict.entries)
    ensures var planned := PostUpdateEvents(old(instanceDict.entries), data, instance, storedActive);
            Completed(planned, svc.raises) == |planned| && "id" !in old(instanceDict.entries) ==>
              failure == Some(KeyError("id")) && instanceDict.entries == old(instanceDict.entries)
    ensures var planned := PostUpdateEvents(old(instanceDict.entries), data, instance, storedActive);
            Completed(planned, svc.raises) == |planned| && "id" in old(instanceDict.entries) ==>
              failure == None
              && instanceDict.entries == PostUpdateResult(old(instanceDict.entries), data, instance, minted)
  {
    ghost var planned := PostUpdateEvents(old(instanceDict.entries), data, instance, storedActive);
    var ok := svc.ClearPersonCache();
    if !ok {
      CompletedAt(planned, svc.raises, 0);
      return Some(ServiceRaised);
    }
    if "id" !in instanceDict.entries {
      return Some(KeyError("id"));
    }
    var id := instanceDict.entries["id"];
    ok := svc.RemovePersonIndex(id);
    if !ok {
      CompletedAt(planned, svc.raises, 1);
      return Some(ServiceRaised);
    }
    if storedActive {
      ok := svc.IndexPerson(id);
      if !ok {
        CompletedAt(planned, svc.raises, 2);
        return Some(ServiceRaised);
      }
    }
    instanceDict.Put("departments", List(DepartmentIds(instance.departments)));
    if "expiration_date" in data {
      var token;
      ok, token := svc.CreateAccessTokenForRawPerson(instance, minted);
      if !ok {
        CompletedAt(planned, svc.raises, if storedActive then 3 else 2);
        return Some(ServiceRaised);
      }
      instanceDict.Put("access_token", Str(token));
    }
    return None;
  }

  /** post_update clears the person cache exactly once, and does so first. */
  lemma PostUpdateClearsCacheOnce(instanceDict: map<string, Value>, data: map<string, Value>,
                                  instance: PersonRow, storedActive: bool)
    ensures var events := PostUpdateEvents(instanceDict, data, instance, storedActive);
            events[0] == CacheCleared && Occurrences(CacheCleared, events) == 1
  { }

  /** The person is removed from the index, and then put back exactly when the
      stored row is active; a token is minted exactly when the update names
      `expiration_date`. */
  lemma PostUpdateIndexesActiveOnly(instanceDict: map<string, Value>, data: map<string, Value>,
                                    instance: PersonRow, storedActive: bool)
    requires "id" in instanceDict
    ensures var events := PostUpdateEvents(instanceDict, data, instance, storedActive);
            var id := instanceDict["id"];
            events[1] == IndexRemoved(id)
            && Occurrences(IndexRemoved(id), events) == 1
            && (IndexAdded(id) in events <==> storedActive)
            && (storedActive ==> events[2] == IndexAdded(id))
            && (TokenMinted(instance.id) in events <==> "expiration_date" in data)
  { }

  // ---------------------------------------------------------------------
  // post_delete and delete
  // ---------------------------------------------------------------------

  /** The answer of a successful delete: an empty body, status 204. */
  datatype Response = Response(body: string, status: int)

  const NoContent: Response := Response("", 204)

  /** post_delete: clears the person cache and hands the dict back. */
  method PostDelete(svc: ServiceLog, instanceDict: map<string, Value>) returns (r: Result<map<string, Value>>)
    modifies svc
    ensures svc.events == old(svc.events) + (if CacheCleared in svc.raises then [] else [CacheCleared])
    ensures r == if CacheCleared in svc.raises then Err(ServiceRaised) else Ok(instanceDict)
  {
    var ok := svc.ClearPersonCache();
    r := if ok then Ok(instanceDict) else Err(ServiceRaised);
  }

  /** The service calls of a successful delete, in order. */
  function DeleteEvents(instanceId: string, force: bool, personDict: map<string, Value>): seq<Event> {
    [CascadeRemoved(Str(instanceId), force), IndexRemoved(Str(instanceId)), DeleteEmitted(personDict), CacheCleared]
  }

  /** What delete answers before any side effect: 404 for a missing person,
      then the delete permission gate; a pass means the calls are issued. */
  function DeleteOutcome(found: Option<map<string, Value>>, caller: Caller): (r: Result<Response>)
    ensures found.None? ==> r == Err(NotFound)
    ensures found.Some? ==> (r.Ok? <==> CheckDeletePermissions(found.value, caller).Ok?)
    ensures found.Some? && "id" in found.value && found.value["id"] == caller.id ==> r == Err(PermissionDenied)
    ensures found.Some? && "id" in found.value && !caller.isAdmin ==> r == Err(PermissionDenied)
    ensures r.Ok? ==> r.value == NoContent
  {
    if found.None? then Err(NotFound)
    else
      match CheckDeletePermissions(found.value, caller)
      case Err(e) => Err(e)
      case Ok(_) => Ok(NoContent)
  }

  /** delete. `force` is the request's force flag; `found` is the person
      get_model_or_404 loads, as person.serialize() renders it, or None when
      there is no such person. pre_delete is the base class's hook, which does
      nothing here. A refused gate issues no call; a call that raises stops
      the delete with the calls before it logged. */
  method Delete(svc: ServiceLog, instanceId: string, force: bool,
                found: Option<map<string, Value>>, caller: Caller) returns (r: Result<Response>)
    modifies svc
    ensures DeleteOutcome(found, caller).Err? ==>
              r == DeleteOutcome(found, caller) && svc.events == old(svc.events)
    ensures DeleteOutcome(found, caller).Ok? ==>
              var planned := DeleteEvents(instanceId, force, found.value);
              var n := Completed(planned, svc.raises);
              svc.events == old(svc.events) + planned[..n]
              && r == if n == |planned| then Ok(NoContent) else Err(ServiceRaised)
  {
    if found.None? {
      return Err(NotFound);
    }
    var personDict := found.value;
    var allowed := CheckDeletePermissions(personDict, caller);
    if allowed.Err? {
      return Err(allowed.error);
    }
    ghost var planned := DeleteEvents(instanceId, force, personDict);
    var ok := svc.RemovePerson(Str(instanceId), force);
    if !ok {
      CompletedAt(planned, svc.raises, 0);
      return Err(ServiceRaised);
    }
    ok := svc.RemovePersonIndex(Str(instanceId));
    if !ok {
      CompletedAt(planned, svc.raises, 1);
      return Err(ServiceRaised);
    }
    ok := svc.EmitDeleteEvent(personDict);
    if !ok {
      CompletedAt(planned, svc.raises, 2);
      return Err(ServiceRaised);
    }
    var cleared := PostDelete(svc, personDict);
    if cleared.Err? {
      CompletedAt(planned, svc.raises, 3);
      return Err(ServiceRaised);
    }
    return Ok(NoContent);
  }

  /** A delete whose cascade the deletion service refuses (a non-forced delete
      of a person still referenced, say) leaves no trace in the log. */
  lemma RefusedCascadeLogsNothing(instanceId: string, force: bool, personDict: map<string, Value>,
                                  raises: set<Event>)
    requires CascadeRemoved(Str(instanceId), force) in raises
    ensures DeleteEvents(instanceId, force, personDict)[..Completed(DeleteEvents(instanceId, force, personDict), raises)] == []
  { }

  /** A successful delete cascades first, clears the cache last, and touches
      the cache and the index exactly once each. */
  lemma DeleteEventsOrder(instanceId: string, force: bool, personDict: map<string, Value>)
    ensures var events := DeleteEvents(instanceId, force, personDict);
            events[0] == CascadeRemoved(Str(instanceId), force)
            && events[|events| - 1] == CacheCleared
            && Occurrences(CacheCleared, events) == 1
            && Occurrences(IndexRemoved(Str(instanceId)), events) == 1
            && forall e :: e in events ==> !e.IndexAdded? && !e.TokenMinted?
  {
    var events := DeleteEvents(instanceId, force, personDict);
    var e1, e2, e3 := events[1..], events[2..], events[3..];
    assert e1[1..] == e2 && e2[1..] == e3 && e3[1..] == [];
    assert Occurrences(CacheCleared, e3) == 1 && Occurrences(IndexRemoved(Str(instanceId)), e3) == 0;
    assert Occurrences(CacheCleared, e2) == 1 && Occurrences(IndexRemoved(Str(instanceId)), e2) == 0;
    assert Occurrences(CacheCleared, e1) == 1 && Occurrences(IndexRemoved(Str(instanceId)), e1) == 1;
  }
}
