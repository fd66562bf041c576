/**
 * service/resources.go: each Service method passes one storage call's result on and tags an error
 * with the HTTP status the REST layer answers with. The storage calls are parameters here; the
 * lemmas of Properties feed them the results of Repository's operations.
 */
module Service {
  import opened Errors
  import opened Models

  const StatusAccepted := 202
  const StatusInternalServerError := 500

  /** A service result: the value, or the error with the HTTP code attached by myerrors.WithFields. */
  datatype Reply<+T> = Success(value: T) | Failure(error: Error, status: int)

  /** The not-found test: the error's text is ErrResourceNotFound's, whatever its identity. */
  predicate IsNotFound(e: Error) {
    e.Message() == NotFoundMessage
  }

  /** The status of a read, update or delete failure: 202 for not found, 500 for anything else. */
  function StatusOf(e: Error): (status: int)
    ensures status == StatusAccepted <==> IsNotFound(e)
    ensures status == StatusInternalServerError <==> !IsNotFound(e)
  {
    if IsNotFound(e) then StatusAccepted else StatusInternalServerError
  }

  /**
   * GetResourceByID, GetResourcesByCategory and GetResourcesByIDs: the storage result unchanged on
   * success, its error tagged by StatusOf otherwise.
   */
  function Lookup<T>(r: Result<T>): (reply: Reply<T>)
    ensures reply.Success? <==> r.Ok?
    ensures r.Ok? ==> reply.value == r.value
    ensures r.Err? ==> reply.error == r.error && reply.status == StatusOf(r.error)
  {
    match r
    case Ok(v) => Success(v)
    case Err(e) => Failure(e, StatusOf(e))
  }

  /** UpdateResource: the storage error tagged by StatusOf. */
  function UpdateResource(err: Option<Error>): (reply: Reply<()>)
    ensures reply.Success? <==> err.None?
    ensures err.Some? ==> reply.error == err.value
    ensures err.Some? ==> (reply.status == StatusAccepted <==> IsNotFound(err.value))
  {
    match err
    case None => Success(())
    case Some(e) => Failure(e, StatusOf(e))
  }

  /**
   * AddResource: the input resource on success; every storage error, not found included, wrapped
   * with "mysql error" and tagged 500.
   */
  function AddResource(resource: Resource, err: Option<Error>): (reply: Reply<Resource>)
    ensures reply.Success? <==> err.None?
    ensures err.None? ==> reply.value == resource
    ensures err.Some? ==> reply.status == StatusInternalServerError
    ensures err.Some? ==> reply.error.Message() == "mysql error: " + err.value.Message()
  {
    match err
    case None => Success(resource)
    case Some(e) =>
      assert "mysql error" + ": " == "mysql error: ";
      Failure(Wrapped("mysql error", e), StatusInternalServerError)
  }

  /**
   * DeleteResource: the delete's error tagged by StatusOf; after a successful delete the re-read
   * fails the call only with an error that is not not-found, and a row still found is no failure.
   */
  function DeleteResource(deleteErr: Option<Error>, reread: Result<Resource>): (reply: Reply<()>)
    ensures deleteErr.Some? ==> reply == Failure(deleteErr.value, StatusOf(deleteErr.value))
    ensures deleteErr.None? ==> (reply.Success? <==> reread.Ok? || IsNotFound(reread.error))
    ensures deleteErr.None? && reply.Failure? ==> reply == Failure(reread.error, StatusInternalServerError)
  {
    match deleteErr
    case Some(e) => Failure(e, StatusOf(e))
    case None =>
      if reread.Err? && !IsNotFound(reread.error) then Failure(reread.error, StatusInternalServerError)
      else Success(())
  }

  /** GetCategories: every error tagged 500, the empty-table sql.ErrNoRows included. */
  function GetCategories(r: Result<seq<Category>>): (reply: Reply<seq<Category>>)
    ensures reply.Success? <==> r.Ok?
    ensures r.Ok? ==> reply.value == r.value
    ensures r.Err? ==> reply == Failure(r.error, StatusInternalServerError)
  {
    match r
    case Ok(cs) => Success(cs)
    case Err(e) => Failure(e, StatusInternalServerError)
  }

  /**
   * A not-found whose rollback failed no longer reads as not found: the combined message differs,
   * so the answer is 500.
   */
  lemma FailedRollbackIsInternal(m: string)
    ensures StatusOf(RollbackError(ResourceNotFound, Some(m))) == StatusInternalServerError
  {
    var e := RollbackError(ResourceNotFound, Some(m));
    assert e.Message() != ResourceNotFound.Message();
  }
}
