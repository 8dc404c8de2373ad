/** The stored answer of one mutation scope and the two statements that use it. */
module MutationReplay {
  import opened Wrappers
  import opened Bytes

  /** One caller, one API operation, one resource path, one key chosen by the caller. */
  datatype Scope = Scope(actor: string, operation: string, path: string, key: string)

  type Fingerprint = seq<Byte>

  datatype Response = Response(status: nat, body: string)

  /** `commit` is the place of the mutation among all committed ones. */
  datatype Record = Record(fingerprint: Fingerprint, response: Response, expiresAt: int, commit: nat)

  type Records = map<Scope, Record>

  datatype Refusal = KeyReused | NotFound

  /** The records without the scope's own record, if that has expired. */
  function Swept(records: Records, scope: Scope, at: int): Records {
    if scope in records && records[scope].expiresAt <= at then records - {scope} else records
  }

  /** What a transaction that began at `at` finds; a replay needs the project it speaks of to be readable. */
  function Found(records: Records, scope: Scope, fingerprint: Fingerprint, at: int, readable: bool): Result<Option<Record>, Refusal> {
    if scope !in records || records[scope].expiresAt <= at then Success(None)
    else if records[scope].fingerprint != fingerprint then Failure(KeyReused)
    else if !readable then Failure(NotFound)
    else Success(Some(records[scope]))
  }

  function Saved(records: Records, scope: Scope, record: Record): Records {
    records[scope := record]
  }

  class IdempotencyTable {
    var records: Records

    /** Runs under the scope's advisory lock. A refusal rolls the sweep back with its transaction. */
    method Acquire(scope: Scope, fingerprint: Fingerprint, at: int, readable: bool) returns (r: Result<Option<Record>, Refusal>)
      modifies this
      ensures r == Found(old(records), scope, fingerprint, at, readable)
      ensures records == if r.Success? then Swept(old(records), scope, at) else old(records)
    {
      var before := records;
      if scope in records && records[scope].expiresAt <= at {
        records := records - {scope};
      }
      if scope !in records {
        return Success(None);
      }
      if records[scope].fingerprint != fingerprint {
        records := before;
        return Failure(KeyReused);
      }
      if !readable {
        records := before;
        return Failure(NotFound);
      }
      return Success(Some(records[scope]));
    }

    /** Refused, and with it the whole mutation, when the retention is not positive. */
    method Save(scope: Scope, fingerprint: Fingerprint, response: Response, at: int, ttl: int, commit: nat) returns (ok: bool)
      requires scope !in records
      modifies this
      ensures ok <==> ttl >= 1
      ensures records ==
              if ok then Saved(old(records), scope, Record(fingerprint, response, at + ttl, commit)) else old(records)
    {
      if ttl < 1 {
        return false;
      }
      records := records[scope := Record(fingerprint, response, at + ttl, commit)];
      return true;
    }
  }
}
