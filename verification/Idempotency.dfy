/** The idempotency records and the three scripts that run on them, each as one atomic step. */
module Idempotency {
  import opened Results

  /** A reservation; `payload` is absent while the request is still being worked on. */
  datatype Record = Record(fingerprint: string, payload: Option<string>)

  type Records = map<string, Record>

  datatype Status = Acquired | Pending | Conflict | Completed(payload: string)

  /** The record of `key` is this request's reservation, still open. */
  predicate IsPending(records: Records, key: string, fingerprint: string) {
    key in records && records[key] == Record(fingerprint, None)
  }

  function BeginStatus(records: Records, key: string, fingerprint: string): Status {
    if key !in records then Acquired
    else if records[key].fingerprint != fingerprint then Conflict
    else match records[key].payload
      case None => Pending
      case Some(payload) => Completed(payload)
  }

  function AfterBegin(records: Records, key: string, fingerprint: string): Records {
    if key in records then records else records[key := Record(fingerprint, None)]
  }

  function AfterComplete(records: Records, key: string, fingerprint: string, payload: string): Records {
    if IsPending(records, key, fingerprint) then records[key := Record(fingerprint, Some(payload))] else records
  }

  function AfterRelease(records: Records, key: string, fingerprint: string): Records {
    if IsPending(records, key, fingerprint) then records - {key} else records
  }

  /** The store the scripts run in. */
  class Store {
    var records: Records

    constructor ()
      ensures records == map[]
    {
      records := map[];
    }

    /** Reserves a free key; a taken one answers by its fingerprint and state. */
    method Begin(key: string, fingerprint: string) returns (status: Status)
      modifies this
      ensures status == BeginStatus(old(records), key, fingerprint)
      ensures records == AfterBegin(old(records), key, fingerprint)
    {
      if key !in records {
        records := records[key := Record(fingerprint, None)];
        return Acquired;
      }
      var current := records[key];
      if current.fingerprint != fingerprint {
        return Conflict;
      }
      if current.payload.Some? {
        return Completed(current.payload.value);
      }
      return Pending;
    }

    /** Fills an open reservation of the same request, and nothing else. */
    method Complete(key: string, fingerprint: string, payload: string) returns (updated: bool)
      modifies this
      ensures updated <==> IsPending(old(records), key, fingerprint)
      ensures records == AfterComplete(old(records), key, fingerprint, payload)
    {
      if key !in records || records[key].fingerprint != fingerprint || records[key].payload.Some? {
        return false;
      }
      records := records[key := records[key].(payload := Some(payload))];
      return true;
    }

    /** Gives up an open reservation of the same request, and nothing else. */
    method Release(key: string, fingerprint: string) returns (deleted: bool)
      modifies this
      ensures deleted <==> IsPending(old(records), key, fingerprint)
      ensures records == AfterRelease(old(records), key, fingerprint)
    {
      if key in records && records[key].fingerprint == fingerprint && records[key].payload.None? {
        records := records - {key};
        return true;
      }
      return false;
    }
  }

  /** A completed record is immutable: no script changes or removes it. */
  lemma {:induction false} CompletedIsImmutable(
      records: Records, key: string, other: string, fingerprint: string, payload: string)
    requires key in records && records[key].payload.Some?
    ensures key in AfterBegin(records, other, fingerprint)
         && AfterBegin(records, other, fingerprint)[key] == records[key]
    ensures key in AfterComplete(records, other, fingerprint, payload)
         && AfterComplete(records, other, fingerprint, payload)[key] == records[key]
    ensures key in AfterRelease(records, other, fingerprint)
         && AfterRelease(records, other, fingerprint)[key] == records[key]
  {
  }
}
