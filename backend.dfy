/** The remote backend as the repositories see it. Each call is replaced by
    the value it produced: no client, a thrown error, or a response envelope
    that may carry per-record results. */
module Backend {
  import opened Common

  /** What a repository gets when it asks for the client and calls it. */
  datatype Client<Resp> = NoClient | Fails | Replies(response: Resp)

  /** Envelope of `fetchRecords` / `getRecordById`. */
  datatype FetchResponse<D> = FetchResponse(success: bool, data: Option<D>)

  /** One entry of `results` in a create, update or delete envelope. */
  datatype RecordOutcome<R> = RecordOutcome(success: bool, data: Option<R>)

  /** Envelope of `createRecord` / `updateRecord` / `deleteRecord`. */
  datatype BatchResponse<R> = BatchResponse(success: bool, results: Option<seq<RecordOutcome<R>>>)

  /** A repository call: the request it sent to the backend (none when the
      client was missing) and the value it returned. */
  datatype Exchange<P, R> = Exchange(sent: Option<P>, result: R)

  /** Index of the first successful record, or `|rs|` when none succeeded. */
  function FirstSuccessIndex<R>(rs: seq<RecordOutcome<R>>): (k: nat)
    ensures k <= |rs|
    ensures forall j :: 0 <= j < k ==> !rs[j].success
    ensures k < |rs| ==> rs[k].success
  {
    if rs == [] then 0
    else if rs[0].success then 0
    else 1 + FirstSuccessIndex(rs[1..])
  }

  predicate AnyFailed<R>(rs: seq<RecordOutcome<R>>) {
    exists i :: 0 <= i < |rs| && !rs[i].success
  }

  predicate AnySucceeded<R>(rs: seq<RecordOutcome<R>>) {
    exists i :: 0 <= i < |rs| && rs[i].success
  }

  /** `successful.length > 0 ? successful[0].data : null`. */
  function FirstSuccessData<R>(rs: seq<RecordOutcome<R>>): (r: Option<R>)
    ensures !AnySucceeded(rs) ==> r == None
    ensures r.Some? ==> exists i :: 0 <= i < |rs| && rs[i].success && rs[i].data == r
    ensures AnySucceeded(rs) ==>
              exists i :: 0 <= i < |rs| && rs[i].success && r == rs[i].data && forall j :: 0 <= j < i ==> !rs[j].success
  {
    var k := FirstSuccessIndex(rs);
    if k < |rs| then rs[k].data else None
  }

  /** The task repository's reading of a create/update envelope: the data of
      the first successful record, even when other records failed. */
  function FirstSuccess<R>(resp: BatchResponse<R>): (r: Option<R>)
    ensures !resp.success || resp.results.None? ==> r == None
    ensures resp.success && resp.results.Some? ==> r == FirstSuccessData(resp.results.value)
  {
    if !resp.success then None
    else match resp.results
      case None => None
      case Some(rs) => FirstSuccessData(rs)
  }

  /** The project repository's reading of a create/update envelope: nothing
      as soon as one record failed, else the first success's data. */
  function FirstSuccessIfNoneFailed<R>(resp: BatchResponse<R>): (r: Option<R>)
    ensures !resp.success || resp.results.None? ==> r == None
    ensures resp.success && resp.results.Some? && AnyFailed(resp.results.value) ==> r == None
    ensures resp.success && resp.results.Some? && !AnyFailed(resp.results.value) ==>
              r == FirstSuccessData(resp.results.value)
  {
    if !resp.success then None
    else match resp.results
      case None => None
      case Some(rs) => if AnyFailed(rs) then None else FirstSuccessData(rs)
  }

  /** The task repository's reading of a delete envelope: some record succeeded. */
  predicate SomeDeleted<R>(resp: BatchResponse<R>) {
    resp.success && resp.results.Some? && AnySucceeded(resp.results.value)
  }

  /** The project repository's reading of a delete envelope: some record
      succeeded and none failed. */
  predicate AllDeleted<R>(resp: BatchResponse<R>) {
    resp.success && resp.results.Some? && !AnyFailed(resp.results.value) && AnySucceeded(resp.results.value)
  }

  /** The project rule is the task rule restricted to envelopes without a
      failed record: whatever it returns, the task rule returns too. */
  lemma StrictRuleRefinesLenient<R>(resp: BatchResponse<R>)
    ensures FirstSuccessIfNoneFailed(resp).Some? ==> FirstSuccessIfNoneFailed(resp) == FirstSuccess(resp)
    ensures resp.results.Some? && !AnyFailed(resp.results.value) ==>
              FirstSuccessIfNoneFailed(resp) == FirstSuccess(resp)
    ensures AllDeleted(resp) ==> SomeDeleted(resp)
  {
  }

  /** The two rules differ on a partial success: one failed record and one
      created record. */
  lemma RulesDifferOnPartialSuccess<R>(d: R)
    ensures var resp := BatchResponse(true, Some([RecordOutcome(false, None), RecordOutcome(true, Some(d))]));
            FirstSuccess(resp) == Some(d) && FirstSuccessIfNoneFailed(resp) == None &&
            SomeDeleted(resp) && !AllDeleted(resp)
  {
    var rs := [RecordOutcome(false, None), RecordOutcome(true, Some(d))];
    assert !rs[0].success && rs[1].success;
    assert FirstSuccessIndex(rs[1..]) == 0;
  }
}
