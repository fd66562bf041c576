/** Error values of the resource repository and the rollback helper shared by both code paths. */
module Errors {

  datatype Option<+T> = None | Some(value: T)

  /** The errors the repository can return, one constructor per distinct Go error value. */
  datatype Error =
    | ResourceNotFound                   // ErrResourceNotFound (storage and dbcontrollers)
    | ResourceAlreadyExists              // ErrResourceAlreadyExists
    | TooManyAttachments                 // ErrResourceHasTooManyAttachments / ...Attachements
    | ResourcesMissing                   // ErrResourcesMissing (storage and mysqldb)
    | NoRows                             // sql.ErrNoRows
    | InvalidUuid                        // uuid.Parse failure
    | IncompatibleType                   // ContentMap.Scan of a value that is neither bytes nor NULL
    | InvalidJson                        // json.Unmarshal failure
    | UnknownContentReference            // ClearAsset of an absent key
    | Driver(message: string)            // any error reported by the database driver
    | RollbackFailed(cause: Error, rollbackMessage: string)
    | Wrapped(context: string, cause: Error)
  {
    /** The text Go's err.Error() produces for this error. */
    function Message(): string {
      match this
      case ResourceNotFound => NotFoundMessage
      case ResourceAlreadyExists => "The resource already exists"
      case TooManyAttachments => "The resource has too many attachements"
      case ResourcesMissing => "This resources is missing or old value is the same as new"
      case NoRows => "sql: no rows in result set"
      case InvalidUuid => "invalid UUID format"
      case IncompatibleType => "incompatible type for StringInterfaceMap"
      case InvalidJson => "unexpected end of JSON input"
      case UnknownContentReference => "unknown content reference"
      case Driver(m) => m
      case RollbackFailed(c, m) => RollbackContext + ": " + c.Message() + "\n" + m + "\n"
      case Wrapped(ctx, c) => ctx + ": " + c.Message()
    }
  }

  const NotFoundMessage := "The selected resource not found"
  const RollbackContext := "Failed to rollback changes"

  /** The substring by which a failed insert is recognised as a primary-key violation. */
  const DuplicateEntrySubString := "Duplicate entry"
  /** What the MySQL driver reports for an insert whose id is already taken. */
  const DuplicateEntryMessage := "Error 1062: " + DuplicateEntrySubString + " for key 'PRIMARY'"
  /** What MySQL reports when UUID_TO_BIN is given a string that is not a UUID. */
  const BadUuidStringMessage := "Error 1411: Incorrect string value for function uuid_to_bin"

  datatype Result<+T> = Ok(value: T) | Err(error: Error)

  /** strings.Contains */
  predicate Contains(s: string, part: string) {
    exists i | 0 <= i <= |s| - |part| :: OccursAt(s, part, i)
  }

  predicate OccursAt(s: string, part: string, i: int) {
    0 <= i <= |s| - |part| && s[i..i + |part|] == part
  }

  lemma {:induction false} ContainsMiddle(a: string, part: string, b: string)
    ensures Contains(a + part + b, part)
  {
    var s := a + part + b;
    assert OccursAt(s, part, |a|);
  }

  lemma {:induction false} ContainsTransitive(s: string, m: string, part: string)
    requires Contains(s, m) && Contains(m, part)
    ensures Contains(s, part)
  {
    var i :| 0 <= i <= |s| - |m| && OccursAt(s, m, i);
    var j :| 0 <= j <= |m| - |part| && OccursAt(m, part, j);
    forall k | 0 <= k < |part|
      ensures s[i + j..i + j + |part|][k] == part[k]
    {
      assert s[i + j + k] == s[i..i + |m|][j + k] == m[j + k] == m[j..j + |part|][k];
    }
    assert OccursAt(s, part, i + j);
  }

  /**
   * rollbackWithErrorStack: the original error when the rollback succeeds, otherwise an error
   * whose message carries both the original message and the rollback failure's.
   */
  function RollbackError(original: Error, rollbackFailure: Option<string>): (e: Error)
    ensures rollbackFailure.None? ==> e == original
    ensures rollbackFailure.Some? ==> e != original && e.Message() != original.Message()
    ensures Contains(e.Message(), original.Message())
    ensures rollbackFailure.Some? ==> Contains(e.Message(), rollbackFailure.value)
  {
    match rollbackFailure
    case None =>
      ContainsMiddle("", original.Message(), "");
      assert "" + original.Message() + "" == original.Message();
      original
    case Some(m) =>
      RollbackMessageParts(RollbackContext, original.Message(), m);
      RollbackFailed(original, m)
  }

  /** The message of a failed rollback holds the original message and the rollback's, and is longer. */
  lemma RollbackMessageParts(context: string, original: string, m: string)
    ensures Contains(context + ": " + original + "\n" + m + "\n", original)
    ensures Contains(context + ": " + original + "\n" + m + "\n", m)
    ensures |context + ": " + original + "\n" + m + "\n"| > |original|
  {
    var s := context + ": " + original + "\n" + m + "\n";
    ContainsMiddle(context + ": ", original, "\n" + m + "\n");
    ContainsMiddle(context + ": " + original + "\n", m, "\n");
    assert s == context + ": " + original + ("\n" + m + "\n");
    assert s == (context + ": " + original + "\n") + m + "\n";
  }

  /** The substring test AddResource and UpdateResource apply to a failed insert. */
  predicate IsDuplicateEntry(e: Error) {
    Contains(e.Message(), DuplicateEntrySubString)
  }

  /** A failed insert is still recognised as a duplicate when its rollback failed as well. */
  lemma DuplicateSurvivesRollback(rollbackFailure: Option<string>)
    ensures IsDuplicateEntry(RollbackError(Driver(DuplicateEntryMessage), rollbackFailure))
  {
    var e := RollbackError(Driver(DuplicateEntryMessage), rollbackFailure);
    ContainsMiddle("Error 1062: ", DuplicateEntrySubString, " for key 'PRIMARY'");
    ContainsTransitive(e.Message(), DuplicateEntryMessage, DuplicateEntrySubString);
  }
}
