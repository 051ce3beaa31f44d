/** The decision rules of the person resources, as pure functions over
    dictionaries and the abstract inputs the resource consults: who the caller
    is, the user-limit flag, the protected accounts and the department lookup. */
module PersonRules {
  import opened Outcomes
  import opened PyModel

  /** The caller as the resource sees it: the id persons_service.get_current_user()
      returns, and the answers of permissions.has_admin_permissions(),
      has_manager_permissions() and has_person_permissions(). */
  datatype Caller = Caller(id: Value, isAdmin: bool, isManager: bool, hasPersonPermissions: bool)

  // ---------------------------------------------------------------------
  // Serialization levels (PersonsResource.all_entries, serialize_instance)
  // ---------------------------------------------------------------------

  /** serialize (with the password hash), serialize_safe, present_minimal */
  datatype ViewLevel = Full | Safe | Minimal

  /** One person of a listing, serialized at `level`. */
  datatype Presentation<P> = Presentation(level: ViewLevel, person: P, relations: bool)

  /** The serialization all_entries picks for the caller. */
  function ListViewLevel(isAdmin: bool, withPassHash: bool): (v: ViewLevel)
    ensures v == Full <==> isAdmin && withPassHash
    ensures v == Safe <==> isAdmin && !withPassHash
    ensures v == Minimal <==> !isAdmin
  {
    if isAdmin then (if withPassHash then Full else Safe) else Minimal
  }

  /** PersonsResource.all_entries: every person of the query (of the whole
      table when no query is given), in query order, at one level. */
  function AllEntries<P>(query: Option<seq<P>>, allPersons: seq<P>, isAdmin: bool,
                         withPassHash: bool, relations: bool): (r: seq<Presentation<P>>)
    ensures var rows := if query.Some? then query.value else allPersons;
            |r| == |rows|
            && forall i :: 0 <= i < |r| ==>
                 r[i].person == rows[i] && r[i].relations == relations
                 && r[i].level == ListViewLevel(isAdmin, withPassHash)
    ensures !isAdmin ==> forall i :: 0 <= i < |r| ==> r[i].level == Minimal
  {
    var rows := if query.Some? then query.value else allPersons;
    var level := ListViewLevel(isAdmin, withPassHash);
    seq(|rows|, i requires 0 <= i < |rows| => Presentation(level, rows[i], relations))
  }

  /** PersonResource.serialize_instance: managers get the safe view, everyone
      else the minimal one; the password hash is never part of it. */
  function DetailViewLevel(isManager: bool): (v: ViewLevel)
    ensures v != Full
    ensures v == Safe <==> isManager
  {
    if isManager then Safe else Minimal
  }

  // ---------------------------------------------------------------------
  // Permission gates
  // ---------------------------------------------------------------------

  /** Who may update a person: the person themself, or an admin. */
  predicate MayUpdate(isSelf: bool, isAdmin: bool) {
    isSelf || isAdmin
  }

  /** Who may delete a person: an admin, and never the person themself. */
  predicate MayDelete(isSelf: bool, isAdmin: bool) {
    !isSelf && isAdmin
  }

  /** check_update_permissions: returns the instance dict unchanged when the
      caller may update it. */
  function CheckUpdatePermissions(instance: map<string, Value>, caller: Caller): (r: Result<map<string, Value>>)
    ensures "id" !in instance ==> r == Err(KeyError("id"))
    ensures "id" in instance ==>
              (r.Ok? <==> MayUpdate(instance["id"] == caller.id, caller.isAdmin))
    ensures "id" in instance && r.Err? ==> r.error == PermissionDenied
    ensures r.Ok? ==> r.value == instance
  {
    if "id" !in instance then Err(KeyError("id"))
    else if instance["id"] != caller.id && !caller.isAdmin then Err(PermissionDenied)
    else Ok(instance)
  }

  /** check_delete_permissions: self-deletion is refused whatever the caller's
      rights; anyone else needs admin rights. */
  function CheckDeletePermissions(instance: map<string, Value>, caller: Caller): (r: Result<map<string, Value>>)
    ensures "id" !in instance ==> r == Err(KeyError("id"))
    ensures "id" in instance ==>
              (r.Ok? <==> MayDelete(instance["id"] == caller.id, caller.isAdmin))
    ensures "id" in instance && instance["id"] == caller.id ==> r == Err(PermissionDenied)
    ensures "id" in instance && r.Err? ==> r.error == PermissionDenied
    ensures r.Ok? ==> r.value == instance
  {
    if "id" !in instance then Err(KeyError("id"))
    else if instance["id"] == caller.id then Err(PermissionDenied)
    else if !caller.isAdmin then Err(PermissionDenied)
    else Ok(instance)
  }

  /** Whoever may delete a person may also update it; the converse fails for
      the person themself. */
  lemma DeleteGateStricterThanUpdate(instance: map<string, Value>, caller: Caller)
    ensures CheckDeletePermissions(instance, caller).Ok? ==> CheckUpdatePermissions(instance, caller).Ok?
    ensures "id" in instance && instance["id"] == caller.id ==>
              CheckUpdatePermissions(instance, caller).Ok? && CheckDeletePermissions(instance, caller).Err?
  { }

  // ---------------------------------------------------------------------
  // The update-field filter (the update_data defined first)
  // ---------------------------------------------------------------------

  /** The keys a non-admin can never write, spelled as the source spells them. */
  const NonAdminLockedFields: set<string> :=
    {"role", "departments", "active", "is_bot", "archived", "login_failed_attemps",
     "last_login_failed", "is_generated_from_ldap", "ldap_uid", "last_presence"}

  /** Whether the filter lets `key` through for a caller with these rights. */
  predicate MayWriteField(key: string, isAdmin: bool, hasPersonPermissions: bool) {
    isAdmin || (key !in NonAdminLockedFields && (key == "expiration_date" ==> hasPersonPermissions))
  }

  /** The map the field filter leaves: the entries of `data` whose key the
      caller may write, with their values. */
  function FilteredUpdateFields(data: map<string, Value>, isAdmin: bool, hasPersonPermissions: bool): (r: map<string, Value>)
    ensures isAdmin ==> r == data
    ensures forall k :: k in r ==> k in data && r[k] == data[k]
    ensures !isAdmin ==> forall k :: k in NonAdminLockedFields ==> k !in r
    ensures forall k :: k in data && k !in NonAdminLockedFields && k != "expiration_date" ==> k in r
    ensures "expiration_date" in data ==> ("expiration_date" in r <==> isAdmin || hasPersonPermissions)
    ensures "login_failed_attempts" in data ==> "login_failed_attempts" in r
  {
    map k | k in data && MayWriteField(k, isAdmin, hasPersonPermissions) :: data[k]
  }

  // ---------------------------------------------------------------------
  // pre_update
  // ---------------------------------------------------------------------

  const UserLimitMessage: string := "User limit reached."
  const ProtectedAccountMessage: string := "Can't set this person as inactive it's a protected account."

  /** The update turns an inactive person active (Python truthiness, a missing
      key reading as False). */
  predicate Activates(instance: map<string, Value>, data: map<string, Value>) {
    !Truthy(Get(instance, "active", Bool(false))) && Truthy(Get(data, "active", Bool(false)))
  }

  /** The person is a bot before or after the update. */
  predicate InvolvesBot(instance: map<string, Value>, data: map<string, Value>) {
    Truthy(Get(instance, "is_bot", Bool(false))) || Truthy(Get(data, "is_bot", Bool(false)))
  }

  /** `data.get("active") is False`: only the value False itself. */
  predicate Deactivates(data: map<string, Value>) {
    Get(data, "active", Null) == Bool(false)
  }

  /** `email in config.PROTECTED_ACCOUNTS` for a list of strings. */
  predicate IsProtected(email: Value, protectedAccounts: set<string>) {
    email.Str? && email.s in protectedAccounts
  }

  /** The user-limit rule fires. */
  predicate ActivationBlocked(instance: map<string, Value>, data: map<string, Value>, userLimitReached: bool) {
    Activates(instance, data) && !InvolvesBot(instance, data) && userLimitReached
  }

  /** pre_update: refuses to activate a non-bot past the user limit, and to
      deactivate a protected account; otherwise returns `data` unchanged. */
  function PreUpdate(instance: map<string, Value>, data: map<string, Value>,
                     userLimitReached: bool, protectedAccounts: set<string>): (r: Result<map<string, Value>>)
    ensures r == Err(WrongParameter(UserLimitMessage)) <==> ActivationBlocked(instance, data, userLimitReached)
    ensures r == Err(PersonInProtectedAccounts(ProtectedAccountMessage)) <==>
              !ActivationBlocked(instance, data, userLimitReached) && Deactivates(data)
              && "email" in instance && IsProtected(instance["email"], protectedAccounts)
    ensures r == Err(KeyError("email")) <==>
              !ActivationBlocked(instance, data, userLimitReached) && Deactivates(data) && "email" !in instance
    ensures r.Err? ==> r.error in {WrongParameter(UserLimitMessage),
                                   PersonInProtectedAccounts(ProtectedAccountMessage), KeyError("email")}
    ensures r.Ok? ==> r.value == data
  {
    if ActivationBlocked(instance, data, userLimitReached) then Err(WrongParameter(UserLimitMessage))
    else if Deactivates(data) then
      if "email" !in instance then Err(KeyError("email"))
      else if IsProtected(instance["email"], protectedAccounts) then
        Err(PersonInProtectedAccounts(ProtectedAccountMessage))
      else Ok(data)
    else Ok(data)
  }

  /** The two rules of pre_update never both apply, so the order in which
      they are tested decides nothing: a blocked activation never reaches the
      email lookup, and setting `active` to False is never an activation. */
  lemma PreUpdateRulesExclusive(instance: map<string, Value>, data: map<string, Value>)
    ensures !(Activates(instance, data) && Deactivates(data))
  { }

  /** An update that does not mention `active` always passes pre_update. */
  lemma PreUpdateIgnoresOtherFields(instance: map<string, Value>, data: map<string, Value>,
                                    userLimitReached: bool, protectedAccounts: set<string>)
    requires "active" !in data
    ensures PreUpdate(instance, data, userLimitReached, protectedAccounts) == Ok(data)
  { }

  // ---------------------------------------------------------------------
  // Department resolution (the update_data defined second)
  // ---------------------------------------------------------------------

  /** What Department.get answers for an id: the row, None, or a
      StatementError (a malformed id). */
  datatype DepartmentLookup = Found(department: Department) | Absent | StatementError

  /** The departments found for `ids`, in input order, ids that resolve to
      None skipped; any StatementError fails the whole resolution. */
  function ResolvedDepartments(ids: seq<Value>, lookup: Value -> DepartmentLookup): (r: Result<seq<Department>>)
    ensures r.Ok? <==> forall i :: 0 <= i < |ids| ==> !lookup(ids[i]).StatementError?
    ensures r.Err? ==> r.error == DepartmentNotFound
    ensures r.Ok? ==> |r.value| <= |ids|
    decreases |ids|
  {
    if ids == [] then Ok([])
    else
      var prefix := ResolvedDepartments(ids[..|ids| - 1], lookup);
      if prefix.Err? then prefix
      else
        match lookup(ids[|ids| - 1])
        case StatementError => Err(DepartmentNotFound)
        case Absent => prefix
        case Found(d) => Ok(prefix.value + [d])
  }

  /** Resolution distributes over concatenation of the id list: the output
      keeps the input order. */
  lemma {:induction false} ResolvedConcat(a: seq<Value>, b: seq<Value>, lookup: Value -> DepartmentLookup)
    ensures ResolvedDepartments(a + b, lookup) ==
              if ResolvedDepartments(a, lookup).Ok? && ResolvedDepartments(b, lookup).Ok?
              then Ok(ResolvedDepartments(a, lookup).value + ResolvedDepartments(b, lookup).value)
              else Err(DepartmentNotFound)
    decreases |b|
  {
    if b == [] {
      assert a + b == a;
      var ra := ResolvedDepartments(a, lookup);
      assert ResolvedDepartments(b, lookup) == Ok([]);
      if ra.Ok? {
        assert ra.value + [] == ra.value;
      }
    } else {
      var b', last := b[..|b| - 1], b[|b| - 1];
      assert (a + b)[..|a + b| - 1] == a + b';
      assert (a + b)[|a + b| - 1] == last;
      ResolvedConcat(a, b', lookup);
      var ra, rb' := ResolvedDepartments(a, lookup), ResolvedDepartments(b', lookup);
      match lookup(last)
      case StatementError =>
        assert ResolvedDepartments(b, lookup).Err?;
      case Absent =>
        assert ResolvedDepartments(b, lookup) == rb';
        assert ResolvedDepartments(a + b, lookup) == ResolvedDepartments(a + b', lookup);
      case Found(d) =>
        assert ResolvedDepartments(b, lookup) == if rb'.Ok? then Ok(rb'.value + [d]) else rb';
        if ra.Ok? && rb'.Ok? {
          assert ra.value + (rb'.value + [d]) == (ra.value + rb'.value) + [d];
        }
    }
  }

  /** An id that resolves to None is skipped: removing it changes nothing. */
  lemma AbsentIdSkipped(ids: seq<Value>, i: nat, lookup: Value -> DepartmentLookup)
    requires i < |ids| && lookup(ids[i]).Absent?
    ensures ResolvedDepartments(ids, lookup) == ResolvedDepartments(ids[..i] + ids[i + 1..], lookup)
  {
    var front, back := ids[..i + 1], ids[i + 1..];
    assert ids == front + back;
    assert front[..|front| - 1] == ids[..i];
    assert ResolvedDepartments(front, lookup) == ResolvedDepartments(ids[..i], lookup);
    ResolvedConcat(front, back, lookup);
    ResolvedConcat(ids[..i], back, lookup);
  }

  /** A department is in the result exactly when some id resolves to it. */
  lemma {:induction false} ResolvedMembership(ids: seq<Value>, lookup: Value -> DepartmentLookup, d: Department)
    requires ResolvedDepartments(ids, lookup).Ok?
    ensures d in ResolvedDepartments(ids, lookup).value <==>
              exists i :: 0 <= i < |ids| && lookup(ids[i]) == Found(d)
    decreases |ids|
  {
    if ids != [] {
      var prefix := ids[..|ids| - 1];
      assert forall i :: 0 <= i < |prefix| ==> prefix[i] == ids[i];
      ResolvedMembership(prefix, lookup, d);
      if exists i :: 0 <= i < |ids| && lookup(ids[i]) == Found(d) {
        var i :| 0 <= i < |ids| && lookup(ids[i]) == Found(d);
        if i < |prefix| {
          assert prefix[i] == ids[i];
        }
      }
    }
  }

  /** When every id exists, the result is exactly their departments, one per id. */
  lemma {:induction false} ResolvedAllFound(ids: seq<Value>, lookup: Value -> DepartmentLookup)
    requires forall i :: 0 <= i < |ids| ==> lookup(ids[i]).Found?
    ensures ResolvedDepartments(ids, lookup).Ok?
    ensures |ResolvedDepartments(ids, lookup).value| == |ids|
    ensures forall i :: 0 <= i < |ids| ==> ResolvedDepartments(ids, lookup).value[i] == lookup(ids[i]).department
    decreases |ids|
  {
    if ids != [] {
      var prefix := ids[..|ids| - 1];
      assert forall i :: 0 <= i < |prefix| ==> prefix[i] == ids[i];
      ResolvedAllFound(prefix, lookup);
    }
  }

  /** The department list stored back into `data["departments"]`. */
  function DepartmentRefs(ds: seq<Department>): seq<Value> {
    seq(|ds|, i requires 0 <= i < |ds| => DepartmentRef(ds[i]))
  }

  /** The map the department-resolving update_data produces. */
  function UpdatedData(data: map<string, Value>, lookup: Value -> DepartmentLookup): (r: Result<map<string, Value>>)
    ensures "departments" !in data ==> r == Ok(data)
    ensures "departments" in data ==>
              (r.Ok? <==> Iterate(data["departments"]).Ok?
                          && ResolvedDepartments(Iterate(data["departments"]).value, lookup).Ok?)
    ensures "departments" in data && r.Ok? ==>
              r.value == data["departments" := List(DepartmentRefs(
                ResolvedDepartments(Iterate(data["departments"]).value, lookup).value))]
    ensures r.Ok? ==> r.value.Keys == data.Keys
                      && forall k :: k in data && k != "departments" ==> r.value[k] == data[k]
    ensures r.Err? ==> r.error == TypeError || r.error == DepartmentNotFound
  {
    if "departments" !in data then Ok(data)
    else
      match Iterate(data["departments"])
      case Err(e) => Err(e)
      case Ok(ids) =>
        match ResolvedDepartments(ids, lookup)
        case Err(e) => Err(e)
        case Ok(ds) => Ok(data["departments" := List(DepartmentRefs(ds))])
  }

  /** Because the department resolver replaces the field filter, a non-admin's
      update keeps every locked field it names except `departments`; a role
      change passes through, for one. */
  lemma ShadowedFilterKeepsLockedFields(data: map<string, Value>, lookup: Value -> DepartmentLookup, k: string)
    requires k in data && k in NonAdminLockedFields && k != "departments"
    requires UpdatedData(data, lookup).Ok?
    ensures k in UpdatedData(data, lookup).value && UpdatedData(data, lookup).value[k] == data[k]
    ensures k !in FilteredUpdateFields(data, false, true)
  { }

  /** A non-admin asking for the admin role: the resolver lets it through. */
  lemma ShadowedFilterRoleExample(lookup: Value -> DepartmentLookup)
    ensures UpdatedData(map["role" := Str("admin")], lookup) == Ok(map["role" := Str("admin")])
    ensures FilteredUpdateFields(map["role" := Str("admin")], false, true) == map[]
  { }

  /** The update_data the class evidently means: the field filter, then the
      department resolution, on the caller's data. */
  function IntendedUpdatedData(data: map<string, Value>, caller: Caller, lookup: Value -> DepartmentLookup): (r: Result<map<string, Value>>)
    ensures !caller.isAdmin ==> r == Ok(FilteredUpdateFields(data, false, caller.hasPersonPermissions))
    ensures !caller.isAdmin ==> forall k :: k in NonAdminLockedFields ==> k !in r.value
    ensures caller.isAdmin ==> r == UpdatedData(data, lookup)
  {
    var filtered := FilteredUpdateFields(data, caller.isAdmin, caller.hasPersonPermissions);
    assert !caller.isAdmin ==> "departments" !in filtered by {
      assert "departments" in NonAdminLockedFields;
    }
    UpdatedData(filtered, lookup)
  }
}
