/** The lookup and ownership guard that every by-id handler (get, update,
    delete, deposit) of every resource repeats inline: a missing record is
    404 "not found", a record of another user is 401 "not authorized", and
    only then does the handler act on the record store. */
module Access {
  import opened Common

  /** The failures a handler reports, each with its HTTP status. */
  datatype Failure = NotFound | NotAuthorized | ServerError
  {
    function Status(): nat
    {
      match this
      case NotFound => 404
      case NotAuthorized => 401
      case ServerError => 500
    }
  }

  /** A handler's answer: the record it returns, or a failure. */
  datatype Response<T> = Done(value: T) | Failed(failure: Failure)

  /** The guard: the existence check comes first, the owner check second. */
  function Check<R>(store: map<Id, R>, id: Id, requester: UserId, ownerOf: R -> UserId): (r: Option<Failure>)
    ensures r == Some(NotFound) <==> id !in store
    ensures r == Some(NotAuthorized) <==> id in store && ownerOf(store[id]) != requester
    ensures r == None <==> id in store && ownerOf(store[id]) == requester
  {
    if id !in store then Some(NotFound)
    else if ownerOf(store[id]) != requester then Some(NotAuthorized)
    else None
  }

  /** Get by id: the record, only for its owner. */
  function GetById<R>(store: map<Id, R>, id: Id, requester: UserId, ownerOf: R -> UserId): (r: Response<R>)
    ensures r.Done? <==> Check(store, id, requester, ownerOf) == None
    ensures r.Done? ==> id in store && r.value == store[id] && ownerOf(r.value) == requester
    ensures r.Failed? ==> Some(r.failure) == Check(store, id, requester, ownerOf)
  {
    match Check(store, id, requester, ownerOf)
    case Some(f) => Failed(f)
    case None => Done(store[id])
  }

  /** Update by id: after both checks pass, the record is replaced by patch of it
      and the new record is returned; on either failure the store is untouched. */
  function UpdateById<R>(store: map<Id, R>, id: Id, requester: UserId, ownerOf: R -> UserId, patch: R -> R)
    : (r: (Response<R>, map<Id, R>))
    ensures Check(store, id, requester, ownerOf).Some? ==>
              r == (Failed(Check(store, id, requester, ownerOf).value), store)
    ensures Check(store, id, requester, ownerOf) == None ==>
              r.0 == Done(patch(store[id])) && r.1 == store[id := patch(store[id])]
    ensures r.1.Keys == store.Keys
    ensures forall k :: k in store && k != id ==> r.1[k] == store[k]
  {
    match Check(store, id, requester, ownerOf)
    case Some(f) => (Failed(f), store)
    case None => (Done(patch(store[id])), store[id := patch(store[id])])
  }

  /** Delete by id: after both checks pass the record is removed and the handler
      confirms; on either failure the store is untouched. */
  function DeleteById<R>(store: map<Id, R>, id: Id, requester: UserId, ownerOf: R -> UserId)
    : (r: (Response<()>, map<Id, R>))
    ensures Check(store, id, requester, ownerOf).Some? ==>
              r == (Failed(Check(store, id, requester, ownerOf).value), store)
    ensures Check(store, id, requester, ownerOf) == None ==> r.0 == Done(())
    ensures r.1 == if r.0.Done? then store - {id} else store
    ensures r.1.Keys <= store.Keys
  {
    match Check(store, id, requester, ownerOf)
    case Some(f) => (Failed(f), store)
    case None => (Done(()), store - {id})
  }

  /** Whoever sends the request, no handler reveals, changes or removes a record
      of another user: the answer is always 401, and the store is the same. */
  lemma ForeignRecordsAreUntouchable<R>(store: map<Id, R>, id: Id, requester: UserId,
                                        ownerOf: R -> UserId, patch: R -> R)
    requires id in store && ownerOf(store[id]) != requester
    ensures GetById(store, id, requester, ownerOf) == Failed(NotAuthorized)
    ensures UpdateById(store, id, requester, ownerOf, patch) == (Failed(NotAuthorized), store)
    ensures DeleteById(store, id, requester, ownerOf) == (Failed(NotAuthorized), store)
    ensures GetById(store, id, requester, ownerOf).failure.Status() == 401
  {
  }

  /** A missing record is 404 for every handler, whoever asks, even when the
      requester's own records exist; the store is the same afterwards. */
  lemma MissingRecordsAreNotFound<R>(store: map<Id, R>, id: Id, requester: UserId,
                                     ownerOf: R -> UserId, patch: R -> R)
    requires id !in store
    ensures GetById(store, id, requester, ownerOf).failure.Status() == 404
    ensures UpdateById(store, id, requester, ownerOf, patch) == (Failed(NotFound), store)
    ensures DeleteById(store, id, requester, ownerOf) == (Failed(NotFound), store)
  {
  }
}
