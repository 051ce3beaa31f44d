/** The collaborators the person resource calls for their side effects
    (persons_service, index_service, deletion_service and the resource's
    event emitter). Each call is recorded, in order, in an event log. */
module Services {
  import opened PyModel

  /** A Person row as the ORM loads it: the fields the resource reads. */
  datatype PersonRow = PersonRow(id: string, departments: seq<Department>)

  /** One side effect issued by the resource. */
  datatype Event =
    /** persons_service.clear_person_cache() */
    | CacheCleared
    /** index_service.remove_person_index(id) */
    | IndexRemoved(personId: Value)
    /** index_service.index_person(person) for the person loaded by that id */
    | IndexAdded(personId: Value)
    /** deletion_service.remove_person(id, force=force) */
    | CascadeRemoved(personId: Value, force: bool)
    /** emit_delete_event(person_dict) */
    | DeleteEmitted(person: map<string, Value>)
    /** persons_service.create_access_token_for_raw_person(person) */
    | TokenMinted(subject: string)

  /** How many times `e` occurs in `log`. */
  function Occurrences(e: Event, log: seq<Event>): (n: nat)
    ensures n <= |log|
    ensures n == 0 <==> e !in log
  {
    if log == [] then 0
    else (if log[0] == e then 1 else 0) + Occurrences(e, log[1..])
  }

  /** How many calls of `planned` complete before the first one that raises:
      the calls before it all return, and the one at that position raises. */
  function Completed(planned: seq<Event>, raises: set<Event>): (n: nat)
    ensures n <= |planned|
    ensures forall i :: 0 <= i < n ==> planned[i] !in raises
    ensures n < |planned| ==> planned[n] in raises
  {
    if planned == [] || planned[0] in raises then 0
    else 1 + Completed(planned[1..], raises)
  }

  /** All planned calls complete exactly when none of them raises. */
  lemma {:induction false} CompletedAll(planned: seq<Event>, raises: set<Event>)
    ensures Completed(planned, raises) == |planned| <==> forall e :: e in planned ==> e !in raises
  {
    if planned != [] && planned[0] !in raises {
      CompletedAll(planned[1..], raises);
      assert planned == [planned[0]] + planned[1..];
    }
  }

  /** The first call that raises decides how many complete. */
  lemma CompletedAt(planned: seq<Event>, raises: set<Event>, k: nat)
    requires k < |planned| && planned[k] in raises
    requires forall i :: 0 <= i < k ==> planned[i] !in raises
    ensures Completed(planned, raises) == k
  { }

  /** The ordered record of every service call that returned. */
  class ServiceLog {
    var events: seq<Event>
    /** The calls that raise an exception instead of returning, among them a
        non-forced remove_person that the deletion service refuses. A call
        that raises is not recorded; what it did before raising is not modelled. */
    const raises: set<Event>

    constructor (raises: set<Event>)
      ensures events == [] && this.raises == raises
    {
      events := [];
      this.raises := raises;
    }

    /** Issues one call: it returns and is recorded, or raises. */
    method Issue(e: Event) returns (ok: bool)
      modifies this
      ensures ok == (e !in raises)
      ensures events == old(events) + (if ok then [e] else [])
    {
      ok := e !in raises;
      if ok {
        events := events + [e];
      }
    }

    method ClearPersonCache() returns (ok: bool)
      modifies this
      ensures ok == (CacheCleared !in raises)
      ensures events == old(events) + (if ok then [CacheCleared] else [])
    {
      ok := Issue(CacheCleared);
    }

    method RemovePersonIndex(personId: Value) returns (ok: bool)
      modifies this
      ensures ok == (IndexRemoved(personId) !in raises)
      ensures events == old(events) + (if ok then [IndexRemoved(personId)] else [])
    {
      ok := Issue(IndexRemoved(personId));
    }

    method IndexPerson(personId: Value) returns (ok: bool)
      modifies this
      ensures ok == (IndexAdded(personId) !in raises)
      ensures events == old(events) + (if ok then [IndexAdded(personId)] else [])
    {
      ok := Issue(IndexAdded(personId));
    }

    method RemovePerson(personId: Value, force: bool) returns (ok: bool)
      modifies this
      ensures ok == (CascadeRemoved(personId, force) !in raises)
      ensures events == old(events) + (if ok then [CascadeRemoved(personId, force)] else [])
    {
      ok := Issue(CascadeRemoved(personId, force));
    }

    method EmitDeleteEvent(person: map<string, Value>) returns (ok: bool)
      modifies this
      ensures ok == (DeleteEmitted(person) !in raises)
      ensures events == old(events) + (if ok then [DeleteEmitted(person)] else [])
    {
      ok := Issue(DeleteEmitted(person));
    }

    /** Mints an access token for `person`; the token string the JWT
        library produces is the input `minted`. */
    method CreateAccessTokenForRawPerson(person: PersonRow, minted: string) returns (ok: bool, token: string)
      modifies this
      ensures ok == (TokenMinted(person.id) !in raises)
      ensures events == old(events) + (if ok then [TokenMinted(person.id)] else [])
      ensures token == minted
    {
      ok := Issue(TokenMinted(person.id));
      token := minted;
    }
  }
}
