/**
 * UploadService.uploadEntries: a JSON array of entries streamed in and
 * upserted one by one. The handlers run one at a time on one event loop,
 * so the service is a sequential machine over the events it is handed:
 * parser events (start and end of the array, a value, the end of input, a
 * parse error) and the completion of an upsert issued earlier, which may
 * come back in any order. The database is not sequential: up to five
 * upserts are in flight at once and may be applied in another order. The
 * model applies each upsert to the table when its value is handled.
 */
module Upload {
  import opened Common
  import opened StringUtil
  import opened SettingsEntry
  import SettingsStorage
  import SettingsPermissions
  import RequestHeaders

  /** The parser is paused once this many upserts are in flight ... */
  const PauseAt := 5
  /** ... and resumed once no more than this many are. */
  const ResumeAt := 2
  const JsonContentType := "application/json"

  /** The Content-Type check made before anything is parsed or written. */
  function CheckContentType(contentType: Option<string>): Result<()> {
    if contentType.None? || !StartsWith(contentType.value, JsonContentType) then
      Err(UserError("Content-Type must be application/json"))
    else Ok(())
  }

  /** Parameters may follow the media type; a missing or other type is refused. */
  lemma ContentTypeExamples()
    ensures CheckContentType(Some("application/json")) == Ok(())
    ensures CheckContentType(Some("application/json; charset=UTF-8")) == Ok(())
    ensures CheckContentType(None) == Err(UserError("Content-Type must be application/json"))
    ensures CheckContentType(Some("text/plain")).Err?
    ensures CheckContentType(Some("application/jso")).Err?
  {
    assert "application/json; charset=UTF-8"[..|JsonContentType|] == JsonContentType;
  }

  /** Exactly a present Content-Type that starts with application/json is accepted; any other is a user error. */
  lemma ContentTypeMeaning(contentType: Option<string>)
    ensures CheckContentType(contentType).Ok? <==> contentType.Some? && StartsWith(contentType.value, JsonContentType)
    ensures CheckContentType(contentType).Err? ==>
      CheckContentType(contentType).error == UserError("Content-Type must be application/json")
  {
  }

  /**
   * The upload's state: the parser's mode, the pending counter and the
   * ended flag, whether the parser is paused, the two counters of the
   * answer, the results of the upserts still in flight, the promise
   * (None until settled) and the answer written (the counters, once the
   * promise succeeded).
   */
  datatype UploadState = UploadState(
    // mirrors objectValueMode / objectEventMode; which parser events are
    // values is the parser's business, so the mode gates nothing here
    valueMode: bool,
    pending: int,
    ended: bool,
    paused: bool,
    inserted: nat,
    updated: nat,
    inflight: seq<Result<bool>>,
    settled: Option<Result<()>>,
    answer: Option<(nat, nat)>)

  /** What the event loop hands the upload. `Done(i)` is the completion of
      the i-th upsert still in flight; `Value(r)` an array element whose
      upsert will come back with r. */
  datatype Event =
    | StartArray
    | EndArray
    | Value(r: Result<bool>)
    | Done(i: nat)
    | End
    | ParseError(message: string)

  function Init(): UploadState {
    UploadState(false, 0, false, false, 0, 0, [], None, None)
  }

  /** The parser emits nothing after the end of input; a completion refers
      to an upsert in flight. */
  predicate Enabled(s: UploadState, ev: Event) {
    match ev
    case Done(i) => i < |s.inflight|
    case _ => !s.ended
  }

  /** promise.tryComplete(), with the answer written on success. */
  function TryComplete(s: UploadState): UploadState {
    if s.settled.Some? then s
    else s.(settled := Some(Ok(())), answer := Some((s.inserted, s.updated)))
  }

  /** promise.tryFail(e). */
  function TryFail(s: UploadState, e: Error): UploadState {
    if s.settled.Some? then s else s.(settled := Some(Err(e)))
  }

  /** The upload counters after an upsert came back with r. */
  function Count(s: UploadState, r: Result<bool>): UploadState {
    if r == Ok(true) then s.(inserted := s.inserted + 1)
    else if r == Ok(false) then s.(updated := s.updated + 1)
    else s
  }

  /** An upsert came back with r: count it, and fail the promise on an error. */
  function Received(s: UploadState, r: Result<bool>): UploadState {
    var s1 := Count(s, r);
    if r.Err? then TryFail(s1, r.error) else s1
  }

  /**
   * The i-th upsert leaves the flight: resume the parser at ResumeAt or
   * fewer in flight, and complete the promise when it was the last one
   * after the end of input.
   */
  function Release(s: UploadState, i: nat): UploadState
    requires i < |s.inflight|
  {
    var p := s.pending - 1;
    var s1 := s.(pending := p, paused := s.paused && p > ResumeAt,
                 inflight := s.inflight[..i] + s.inflight[i + 1..]);
    if s1.ended && p == 0 then TryComplete(s1) else s1
  }

  /** The handlers of uploadEntries, one event at a time. */
  function Step(s: UploadState, ev: Event): UploadState
    requires Enabled(s, ev)
  {
    match ev
    case StartArray => s.(valueMode := true)
    case EndArray => s.(valueMode := false)
    case Value(r) =>
      var p := s.pending + 1;
      s.(pending := p, paused := s.paused || p >= PauseAt, inflight := s.inflight + [r])
    case Done(i) => Release(Received(s, s.inflight[i]), i)
    case End =>
      var s1 := s.(ended := true);
      if s1.pending == 0 then TryComplete(s1) else s1
    case ParseError(m) => TryFail(s, UserError(m))
  }

  /**
   * What every reachable state satisfies:
   *  - pending counts the upserts in flight;
   *  - at PauseAt or more in flight the parser is paused, at ResumeAt or
   *    fewer it is not;
   *  - the promise succeeded only after the end of input with nothing in
   *    flight, and by then it has settled;
   *  - the answer is written exactly when the promise succeeded, and it
   *    holds the final counters.
   */
  predicate Inv(s: UploadState) {
    && s.pending == |s.inflight|
    && (s.pending >= PauseAt ==> s.paused)
    && (s.pending <= ResumeAt ==> !s.paused)
    && (s.settled == Some(Ok(())) ==> s.ended && s.pending == 0)
    && (s.ended && s.pending == 0 ==> s.settled.Some?)
    && (s.answer.Some? <==> s.settled == Some(Ok(())))
    && (s.answer.Some? ==> s.answer.value == (s.inserted, s.updated))
  }

  lemma InitInv()
    ensures Inv(Init())
  {
  }

  /** A completion keeps the invariant. */
  lemma DoneInv(s: UploadState, i: nat)
    requires Inv(s) && i < |s.inflight|
    ensures Inv(Step(s, Done(i)))
  {
    var s2 := Received(s, s.inflight[i]);
    assert s2.pending == s.pending && s2.inflight == s.inflight && s2.ended == s.ended && s2.paused == s.paused;
    assert s2.answer == s.answer && (s2.settled == Some(Ok(())) <==> s.settled == Some(Ok(())));
    var rest := s2.inflight[..i] + s2.inflight[i + 1..];
    assert |rest| == |s.inflight| - 1;
  }

  /** Every handler keeps the invariant. */
  lemma StepInv(s: UploadState, ev: Event)
    requires Inv(s) && Enabled(s, ev)
    ensures Inv(Step(s, ev))
  {
    if ev.Done? {
      DoneInv(s, ev.i);
    }
  }

  /** The promise settles once: a settled upload stays settled the same way,
      and a written answer is never rewritten. */
  lemma SettleOnce(s: UploadState, ev: Event)
    requires Inv(s) && Enabled(s, ev) && s.settled.Some?
    ensures Step(s, ev).settled == s.settled
    ensures Step(s, ev).answer == s.answer
  {
  }

  /** A failed upsert fails the upload, unless it had already settled. */
  lemma UpsertFailureFails(s: UploadState, i: nat)
    requires Inv(s) && i < |s.inflight| && s.inflight[i].Err? && s.settled.None?
    ensures Step(s, Done(i)).settled == Some(Err(s.inflight[i].error))
    ensures Step(s, Done(i)).answer.None?
  {
  }

  /** A parse error fails the upload as a user error, unless it had already settled. */
  lemma ParseErrorFails(s: UploadState, m: string)
    requires Inv(s) && !s.ended && s.settled.None?
    ensures Step(s, ParseError(m)).settled == Some(Err(UserError(m)))
  {
  }

  /**
   * When the parser delivers values only while it is not paused, no more
   * than PauseAt upserts are ever in flight.
   */
  lemma PendingBounded(s: UploadState, ev: Event)
    requires Inv(s) && Enabled(s, ev) && s.pending <= PauseAt
    requires ev.Value? ==> !s.paused
    ensures Step(s, ev).pending <= PauseAt
  {
  }

  /** The states a run of events reaches, from s. */
  function Run(s: UploadState, evs: seq<Event>): UploadState
    requires Inv(s)
    ensures Inv(Run(s, evs))
    decreases |evs|
  {
    if evs == [] || !Enabled(s, evs[0]) then s
    else
      StepInv(s, evs[0]);
      Run(Step(s, evs[0]), evs[1..])
  }

  /** How many completions in a run, from s, deliver the result r. */
  function Delivered(s: UploadState, evs: seq<Event>, r: Result<bool>): nat
    requires Inv(s)
    decreases |evs|
  {
    if evs == [] || !Enabled(s, evs[0]) then 0
    else
      StepInv(s, evs[0]);
      var here := if evs[0].Done? && s.inflight[evs[0].i] == r then 1 else 0;
      here + Delivered(Step(s, evs[0]), evs[1..], r)
  }

  /**
   * The answer's counters: `inserted` counts the upserts that came back
   * true, `updated` those that came back false, and nothing else moves
   * them.
   */
  lemma {:induction false} CountersCountDeliveries(s: UploadState, evs: seq<Event>)
    requires Inv(s)
    ensures Run(s, evs).inserted == s.inserted + Delivered(s, evs, Ok(true))
    ensures Run(s, evs).updated == s.updated + Delivered(s, evs, Ok(false))
    decreases |evs|
  {
    if evs != [] && Enabled(s, evs[0]) {
      var ev := evs[0];
      StepInv(s, ev);
      var s' := Step(s, ev);
      StepCounts(s, ev);
      CountersCountDeliveries(s', evs[1..]);
      assert Run(s, evs) == Run(s', evs[1..]);
      assert Delivered(s, evs, Ok(true)) == Delivered(s', evs[1..], Ok(true)) + (if ev.Done? && s.inflight[ev.i] == Ok(true) then 1 else 0);
      assert Delivered(s, evs, Ok(false)) == Delivered(s', evs[1..], Ok(false)) + (if ev.Done? && s.inflight[ev.i] == Ok(false) then 1 else 0);
    }
  }

  /** One event moves `inserted` by a completion that came back true, `updated` by one that came back false. */
  lemma StepCounts(s: UploadState, ev: Event)
    requires Enabled(s, ev)
    ensures Step(s, ev).inserted == s.inserted + (if ev.Done? && s.inflight[ev.i] == Ok(true) then 1 else 0)
    ensures Step(s, ev).updated == s.updated + (if ev.Done? && s.inflight[ev.i] == Ok(false) then 1 else 0)
  {
  }

  /**
   * The upload succeeds exactly when input ended, every upsert came back,
   * and no failure settled it first; the answer then carries the
   * counters.
   */
  lemma SuccessMeans(s: UploadState)
    requires Inv(s)
    ensures s.settled == Some(Ok(())) ==> s.ended && s.inflight == [] && s.answer == Some((s.inserted, s.updated))
    ensures s.ended && s.inflight == [] ==> s.settled.Some?
    ensures s.settled == Some(Ok(())) <==> s.ended && s.inflight == [] && !(s.settled.Some? && s.settled.value.Err?)
  {
    if s.ended && s.inflight == [] && s.settled.Some? && s.settled.value.Ok? {
      assert s.settled.value.value == ();
    }
  }

  /**
   * uploadEntries over the events the parser delivers: a refused
   * Content-Type fails the request before any event is handled; otherwise
   * the handlers run from the initial state.
   */
  function UploadSpec(contentType: Option<string>, evs: seq<Event>): Result<UploadState> {
    var c := CheckContentType(contentType);
    if c.Err? then Err(c.error)
    else
      InitInv();
      Ok(Run(Init(), evs))
  }

  /**
   * A refused Content-Type is the user error and nothing else happens; an
   * accepted upload counts the upserts that came back true as inserted and
   * those that came back false as updated, and when it succeeds it answers
   * exactly those counts.
   */
  lemma UploadMeaning(contentType: Option<string>, evs: seq<Event>)
    ensures CheckContentType(contentType).Err? ==>
      UploadSpec(contentType, evs) == Err(UserError("Content-Type must be application/json"))
    ensures CheckContentType(contentType).Ok? ==>
      var s := UploadSpec(contentType, evs);
      && s.Ok?
      && s.value.inserted == Delivered(Init(), evs, Ok(true))
      && s.value.updated == Delivered(Init(), evs, Ok(false))
      && (s.value.settled == Some(Ok(())) ==>
            s.value.answer == Some((Delivered(Init(), evs, Ok(true)), Delivered(Init(), evs, Ok(false)))))
  {
    if CheckContentType(contentType).Ok? {
      InitInv();
      CountersCountDeliveries(Init(), evs);
      SuccessMeans(Run(Init(), evs));
    }
  }

  /**
   * UploadService.uploadEntries up to the handlers' registration: the
   * Content-Type is checked first, then the storage is made from the
   * headers; only then is an Uploader set up. A refusal makes no storage
   * and no Uploader, so no upsert is ever issued and no table changes.
   */
  method UploadEntries(contentType: Option<string>, h: RequestHeaders.Headers, db: SettingsStorage.SettingsTable,
                       parseUuid: string -> Result<Uuid>, parsePerms: string -> Result<SettingsPermissions.Perms>)
    returns (r: Result<Uploader>)
    requires SettingsStorage.Unique(db.rows)
    ensures unchanged(db)
    ensures CheckContentType(contentType).Err? ==> r == Err(UserError("Content-Type must be application/json"))
    ensures var c := RequestHeaders.CallerOf(h, parseUuid, parsePerms);
      && (r.Ok? <==> CheckContentType(contentType).Ok? && c.Ok?)
      && (CheckContentType(contentType).Ok? && c.Err? ==> r == Err(c.error))
      && (r.Ok? ==>
            && fresh(r.value) && r.value.Valid() && r.value.State() == Init()
            && r.value.storage.db == db
            && r.value.storage.currentUser == c.value.currentUser
            && r.value.storage.permissions == c.value.permissions)
  {
    var checked := CheckContentType(contentType);
    if checked.Err? {
      return Err(checked.error);
    }
    var caller := RequestHeaders.CallerOf(h, parseUuid, parsePerms);
    if caller.Err? {
      return Err(caller.error);
    }
    var storage := new SettingsStorage.Storage(db, caller.value.currentUser, caller.value.permissions);
    var u := new Uploader(storage);
    r := Ok(u);
  }

  /**
   * UploadService.uploadEntries after the Content-Type check: the mutable
   * state the handlers share, and the storage the upserts go to.
   */
  class Uploader {
    var valueMode: bool
    var pending: int
    var ended: bool
    var paused: bool
    var inserted: nat
    var updated: nat
    var inflight: seq<Result<bool>>
    var settled: Option<Result<()>>
    var answer: Option<(nat, nat)>
    const storage: SettingsStorage.Storage

    function State(): UploadState
      reads this
    {
      UploadState(valueMode, pending, ended, paused, inserted, updated, inflight, settled, answer)
    }

    ghost predicate Valid()
      reads this, storage.db
    {
      Inv(State()) && SettingsStorage.Unique(storage.db.rows)
    }

    /** The counters start at 0, nothing is in flight, the parser runs. */
    constructor (storage: SettingsStorage.Storage)
      requires SettingsStorage.Unique(storage.db.rows)
      ensures Valid() && State() == Init() && this.storage == storage
    {
      this.storage := storage;
      valueMode, pending, ended, paused := false, 0, false, false;
      inserted, updated, inflight, settled, answer := 0, 0, [], None, None;
    }

    /** START_ARRAY switches the parser to whole-object values. */
    method OnStartArray()
      requires Valid() && !ended
      modifies this`valueMode
      ensures Valid() && State() == Step(old(State()), StartArray)
    {
      valueMode := true;
    }

    /** END_ARRAY switches it back to events. */
    method OnEndArray()
      requires Valid() && !ended
      modifies this`valueMode
      ensures Valid() && State() == Step(old(State()), EndArray)
    {
      valueMode := false;
    }

    /**
     * VALUE: count the upsert in, pause the parser at PauseAt in flight,
     * and issue the upsert (with `newId` as its random id); its result
     * comes back later through OnDone.
     */
    method OnValue(entry: Entry, newId: Uuid) returns (r: Result<bool>)
      requires Valid() && !ended
      modifies this, storage.db, entry`id
      ensures Valid()
      ensures State() == Step(old(State()), Value(r))
      ensures SettingsStorage.UpsertOutcome(r, storage.db.rows, entry.id) ==
        SettingsStorage.UpsertSpec(old(storage.db.rows), storage.permissions, storage.currentUser, old(entry.Data()), newId)
    {
      StepInv(State(), Value(Ok(true)));
      pending := pending + 1;
      if pending >= PauseAt {
        paused := true;
      }
      r := storage.UpsertEntry(entry, newId);
      inflight := inflight + [r];
      StepInv(old(State()), Value(r));
    }

    /** promise.tryFail(e). */
    method Fail(e: Error)
      modifies this`settled
      ensures State() == TryFail(old(State()), e)
    {
      if settled.None? {
        settled := Some(Err(e));
      }
    }

    /** promise.tryComplete(), whose success writes the counters as the answer. */
    method Complete()
      modifies this`settled, this`answer
      ensures State() == TryComplete(old(State()))
    {
      if settled.None? {
        settled := Some(Ok(()));
        answer := Some((inserted, updated));
      }
    }

    /** Count the upsert that came back with r, and fail the promise on an error. */
    method Receive(r: Result<bool>)
      modifies this`inserted, this`updated, this`settled
      ensures State() == Received(old(State()), r)
    {
      if r == Ok(true) {
        inserted := inserted + 1;
      } else if r == Ok(false) {
        updated := updated + 1;
      }
      if r.Err? {
        Fail(r.error);
      }
    }

    /** Take the i-th upsert out of the flight, resume the parser, complete the promise after the last one. */
    method ReleaseSlot(i: nat)
      requires i < |inflight|
      modifies this`pending, this`paused, this`inflight, this`settled, this`answer
      ensures State() == Release(old(State()), i)
    {
      pending := pending - 1;
      if pending <= ResumeAt {
        paused := false;
      }
      inflight := inflight[..i] + inflight[i + 1..];
      if ended && pending == 0 {
        Complete();
      }
    }

    /**
     * The i-th upsert in flight came back: count it, fail the promise on
     * an error, resume the parser at ResumeAt or fewer in flight, and
     * complete the promise when it was the last one after the end.
     */
    method OnDone(i: nat)
      requires Valid() && i < |inflight|
      modifies this
      ensures Valid() && State() == Step(old(State()), Done(i))
    {
      Receive(inflight[i]);
      ReleaseSlot(i);
      DoneInv(old(State()), i);
    }

    /** The end of input: complete the promise when nothing is in flight. */
    method OnEnd()
      requires Valid() && !ended
      modifies this
      ensures Valid() && State() == Step(old(State()), End)
    {
      ended := true;
      if pending == 0 {
        Complete();
      }
      StepInv(old(State()), End);
    }

    /** A parse error fails the promise as a user error. */
    method OnParseError(message: string)
      requires Valid() && !ended
      modifies this
      ensures Valid() && State() == Step(old(State()), ParseError(message))
    {
      Fail(UserError(message));
      StepInv(old(State()), ParseError(message));
    }
  }
}
