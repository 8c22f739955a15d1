/**
 The client's synchronisation state and the pure transitions its event
 handlers perform. Each asynchronous handler is split into the synchronous
 part that runs before the request (`BeginCreate`) and the state its outcome
 produces; the outcome of the request is an input.
 */
module Sync {
  import opened Records
  import opened Wire
  import opened ErrorFormat
  import opened Forms

  /** Everything the page component keeps in `useState`. */
  datatype State = State(
    transcripts: seq<Record>,
    icebreakers: seq<Record>,
    loading: bool,
    icebreakerLoading: bool,
    error: string,
    success: string,
    transcriptDraft: TranscriptDraft,
    icebreakerDraft: IcebreakerDraft)

  /** How a create request ended: 2xx with the stored row, non-2xx with an error body, or a thrown exception. */
  datatype CreateOutcome = Created(record: Record) | Rejected(detail: Detail) | Thrown

  /** How a delete request ended: 2xx, non-2xx, or a thrown exception. */
  datatype DeleteOutcome = Deleted | Refused | DeleteThrown

  /** How a list request on mount ended: 2xx with the rows, non-2xx, or a thrown exception. */
  datatype LoadOutcome = Loaded(rows: seq<Record>) | LoadRefused | LoadThrown

  const NetworkErrorMessage: string := "Network error. Please check if the backend is running."
  const TranscriptLoadFailedMessage: string := "Failed to fetch transcripts"

  function CreatedMessage(k: Kind): string {
    match k
    case TranscriptKind => "Transcript analyzed successfully!"
    case IcebreakerKind => "LinkedIn icebreaker generated successfully!"
  }

  function CreateFallbackMessage(k: Kind): string {
    match k
    case TranscriptKind => "Failed to analyze transcript"
    case IcebreakerKind => "Failed to generate icebreaker"
  }

  function DeletedMessage(k: Kind): string {
    match k
    case TranscriptKind => "Transcript deleted successfully"
    case IcebreakerKind => "Icebreaker deleted successfully"
  }

  function DeleteFailedMessage(k: Kind): string {
    match k
    case TranscriptKind => "Failed to delete transcript"
    case IcebreakerKind => "Failed to delete icebreaker"
  }

  /** The state on mount, before either list request completes. */
  const Initial: State :=
    State([], [], false, false, "", "", EmptyTranscriptDraft, InitialIcebreakerDraft)

  function RecordsOf(st: State, k: Kind): seq<Record> {
    match k
    case TranscriptKind => st.transcripts
    case IcebreakerKind => st.icebreakers
  }

  function LoadingOf(st: State, k: Kind): bool {
    match k
    case TranscriptKind => st.loading
    case IcebreakerKind => st.icebreakerLoading
  }

  /** The kind's draft is the one a successful create leaves behind. */
  predicate DraftIsReset(st: State, k: Kind) {
    match k
    case TranscriptKind =>
      forall f :: TranscriptValue(st.transcriptDraft, f) == ""
    case IcebreakerKind =>
      && IcebreakerValue(st.icebreakerDraft, IRoleLevel) == DefaultRoleLevel
      && forall f :: f != IRoleLevel ==> IcebreakerValue(st.icebreakerDraft, f) == ""
  }

  /** Both drafts of `a` and `b` agree. */
  predicate SameDrafts(a: State, b: State) {
    a.transcriptDraft == b.transcriptDraft && a.icebreakerDraft == b.icebreakerDraft
  }

  /** Each list holds only records of its own kind. */
  predicate WellKinded(st: State) {
    AllOfKind(st.transcripts, TranscriptKind) && AllOfKind(st.icebreakers, IcebreakerKind)
  }

  function WithRecords(st: State, k: Kind, rs: seq<Record>): State {
    match k
    case TranscriptKind => st.(transcripts := rs)
    case IcebreakerKind => st.(icebreakers := rs)
  }

  function WithLoading(st: State, k: Kind, b: bool): State {
    match k
    case TranscriptKind => st.(loading := b)
    case IcebreakerKind => st.(icebreakerLoading := b)
  }

  function WithResetDraft(st: State, k: Kind): State {
    match k
    case TranscriptKind => st.(transcriptDraft := EmptyTranscriptDraft)
    case IcebreakerKind => st.(icebreakerDraft := InitialIcebreakerDraft)
  }

  /** `handleInputChange`: one transcript field changes and nothing else does. */
  function EditTranscript(st: State, f: TranscriptField, v: string): (r: State)
    ensures TranscriptValue(r.transcriptDraft, f) == v
    ensures forall g :: g != f ==> TranscriptValue(r.transcriptDraft, g) == TranscriptValue(st.transcriptDraft, g)
    ensures r.(transcriptDraft := st.transcriptDraft) == st
  {
    st.(transcriptDraft := SetTranscriptField(st.transcriptDraft, f, v))
  }

  /** `handleIcebreakerInputChange`: one icebreaker field changes and nothing else does. */
  function EditIcebreaker(st: State, f: IcebreakerField, v: string): (r: State)
    ensures IcebreakerValue(r.icebreakerDraft, f) == v
    ensures forall g :: g != f ==> IcebreakerValue(r.icebreakerDraft, g) == IcebreakerValue(st.icebreakerDraft, g)
    ensures r.(icebreakerDraft := st.icebreakerDraft) == st
  {
    st.(icebreakerDraft := SetIcebreakerField(st.icebreakerDraft, f, v))
  }

  /** The synchronous start of a create handler: both message slots cleared, the kind's spinner on. */
  function BeginCreate(st: State, k: Kind): (r: State)
    ensures r.error == "" && r.success == ""
    ensures LoadingOf(r, k)
    ensures LoadingOf(r, k.Other()) == LoadingOf(st, k.Other())
    ensures r.transcripts == st.transcripts && r.icebreakers == st.icebreakers
    ensures SameDrafts(r, st)
  {
    WithLoading(st, k, true).(error := "", success := "")
  }

  /**
   The state a create's outcome produces (the `try`/`catch`/`finally` of
   `handleSubmit` and `handleIcebreakerSubmit`). The kind's spinner is off
   after every outcome; the other kind's list, draft and spinner are untouched.
   */
  function FinishCreate(st: State, k: Kind, o: CreateOutcome): (r: State)
    ensures !LoadingOf(r, k)
    ensures LoadingOf(r, k.Other()) == LoadingOf(st, k.Other())
    ensures RecordsOf(r, k.Other()) == RecordsOf(st, k.Other())
    ensures k == TranscriptKind ==> r.icebreakerDraft == st.icebreakerDraft
    ensures k == IcebreakerKind ==> r.transcriptDraft == st.transcriptDraft
    ensures o.Created? ==>
      && RecordsOf(r, k) == [o.record] + RecordsOf(st, k)
      && |RecordsOf(r, k)| == |RecordsOf(st, k)| + 1
      && DraftIsReset(r, k)
      && (k == TranscriptKind ==> r.transcriptDraft == Initial.transcriptDraft)
      && (k == IcebreakerKind ==> r.icebreakerDraft == Initial.icebreakerDraft)
      && r.success == CreatedMessage(k)
      && r.error == st.error
    ensures o.Rejected? ==>
      && RecordsOf(r, k) == RecordsOf(st, k)
      && SameDrafts(r, st)
      && r.error == CreateErrorMessage(o.detail, CreateFallbackMessage(k))
      && r.success == st.success
    ensures o.Thrown? ==>
      && RecordsOf(r, k) == RecordsOf(st, k)
      && SameDrafts(r, st)
      && r.error == NetworkErrorMessage
      && r.success == st.success
    ensures WellKinded(st) && (o.Created? ==> o.record.KindOf() == k) ==> WellKinded(r)
  {
    var done := WithLoading(st, k, false);
    match o
    case Created(rec) =>
      WithResetDraft(WithRecords(done, k, [rec] + RecordsOf(st, k)), k).(success := CreatedMessage(k))
    case Rejected(d) =>
      done.(error := CreateErrorMessage(d, CreateFallbackMessage(k)))
    case Thrown =>
      done.(error := NetworkErrorMessage)
  }

  /**
   A whole create handler as one atomic step. Afterwards exactly one of the
   two message slots can be non-empty: the success text, or an error.
   */
  function SubmitCreate(st: State, k: Kind, o: CreateOutcome): (r: State)
    ensures !LoadingOf(r, k)
    ensures o.Created? ==> r.success == CreatedMessage(k) && r.error == ""
    ensures !o.Created? ==> r.success == ""
    ensures o.Thrown? ==> r.error == NetworkErrorMessage
    ensures !o.Created? ==> RecordsOf(r, k) == RecordsOf(st, k) && SameDrafts(r, st)
  {
    FinishCreate(BeginCreate(st, k), k, o)
  }

  /**
   `handleDelete`/`handleIcebreakerDelete`. Neither message slot is cleared
   first: a success leaves any earlier error visible, a non-2xx response
   changes nothing at all, and a thrown request only sets the error.
   */
  function Delete(st: State, k: Kind, id: int, o: DeleteOutcome): (r: State)
    ensures RecordsOf(r, k.Other()) == RecordsOf(st, k.Other())
    ensures SameDrafts(r, st)
    ensures LoadingOf(r, k) == LoadingOf(st, k) && LoadingOf(r, k.Other()) == LoadingOf(st, k.Other())
    ensures o.Deleted? ==>
      && !HasId(RecordsOf(r, k), id)
      && IsSubsequence(RecordsOf(r, k), RecordsOf(st, k))
      && (forall x :: x in RecordsOf(r, k) <==> x in RecordsOf(st, k) && x.id != id)
      && (forall x: Record :: x.id != id ==> multiset(RecordsOf(r, k))[x] == multiset(RecordsOf(st, k))[x])
      && r.success == DeletedMessage(k)
      && r.error == st.error
    ensures o.Deleted? && !HasId(RecordsOf(st, k), id) ==> RecordsOf(r, k) == RecordsOf(st, k)
    ensures o.Refused? ==> r == st
    ensures o.DeleteThrown? ==>
      && RecordsOf(r, k) == RecordsOf(st, k)
      && r.error == DeleteFailedMessage(k)
      && r.success == st.success
    ensures WellKinded(st) ==> WellKinded(r)
  {
    match o
    case Deleted =>
      var rows := RemoveId(RecordsOf(st, k), id);
      RemoveIdKeepsAllCounts(RecordsOf(st, k), id);
      var r := WithRecords(st, k, rows).(success := DeletedMessage(k));
      assert RecordsOf(r, k) == rows && RecordsOf(r, k.Other()) == RecordsOf(st, k.Other());
      r
    case Refused => st
    case DeleteThrown => st.(error := DeleteFailedMessage(k))
  }

  /**
   The mount-time list requests. A 2xx response replaces the list wholesale;
   a non-2xx response is ignored; a thrown transcript request sets an error,
   while a thrown icebreaker request is only logged to the console.
   */
  function Load(st: State, k: Kind, o: LoadOutcome): (r: State)
    ensures RecordsOf(r, k.Other()) == RecordsOf(st, k.Other())
    ensures SameDrafts(r, st)
    ensures r.success == st.success
    ensures r.loading == st.loading && r.icebreakerLoading == st.icebreakerLoading
    ensures o.Loaded? ==> RecordsOf(r, k) == o.rows && r.error == st.error
    ensures o.LoadRefused? ==> r == st
    ensures o.LoadThrown? ==> RecordsOf(r, k) == RecordsOf(st, k)
    ensures o.LoadThrown? && k == TranscriptKind ==> r.error == TranscriptLoadFailedMessage
    ensures o.LoadThrown? && k == IcebreakerKind ==> r == st
    ensures WellKinded(st) && (o.Loaded? ==> AllOfKind(o.rows, k)) ==> WellKinded(r)
  {
    match o
    case Loaded(rows) => WithRecords(st, k, rows)
    case LoadRefused => st
    case LoadThrown =>
      if k == TranscriptKind then st.(error := TranscriptLoadFailedMessage) else st
  }

  /** Successive successful creates of one kind, in acknowledgement order. */
  function CreateAll(st: State, k: Kind, rs: seq<Record>): State
    decreases |rs|
  {
    if |rs| == 0 then st
    else CreateAll(SubmitCreate(st, k, Created(rs[0])), k, rs[1..])
  }

  /** The list is newest first: the created records in reverse acknowledgement order, ahead of the old list. */
  lemma {:induction false} CreateAllNewestFirst(st: State, k: Kind, rs: seq<Record>)
    ensures RecordsOf(CreateAll(st, k, rs), k) == Reverse(rs) + RecordsOf(st, k)
    ensures RecordsOf(CreateAll(st, k, rs), k.Other()) == RecordsOf(st, k.Other())
    decreases |rs|
  {
    if |rs| > 0 {
      var next := SubmitCreate(st, k, Created(rs[0]));
      CreateAllNewestFirst(next, k, rs[1..]);
      assert Reverse(rs) == Reverse(rs[1..]) + [rs[0]];
    }
  }

  /**
   Creating is not idempotent on ids: acknowledging the same record twice
   lists it twice, since the handler prepends without looking at ids.
   */
  lemma DuplicateCreateListsTwice(st: State, k: Kind, rec: Record)
    ensures RecordsOf(SubmitCreate(SubmitCreate(st, k, Created(rec)), k, Created(rec)), k)
            == [rec, rec] + RecordsOf(st, k)
  {
  }

  /** Deleting the id of a record just created restores the list (when the id was new). */
  lemma DeleteUndoesCreate(st: State, k: Kind, rec: Record)
    requires !HasId(RecordsOf(st, k), rec.id)
    ensures RecordsOf(Delete(SubmitCreate(st, k, Created(rec)), k, rec.id, Deleted), k)
            == RecordsOf(st, k)
  {
    RemoveIdAfterPrepend(rec, RecordsOf(st, k));
  }

  /** A second successful delete of the same id leaves the list as the first one left it. */
  lemma DeleteTwiceSameAsOnce(st: State, k: Kind, id: int)
    ensures RecordsOf(Delete(Delete(st, k, id, Deleted), k, id, Deleted), k)
            == RecordsOf(Delete(st, k, id, Deleted), k)
  {
    RemoveIdIdempotent(RecordsOf(st, k), id);
  }

  /** A rejected create leaves the kind's list and both drafts exactly as before the submit. */
  lemma RejectedCreateKeepsListAndDraft(st: State, k: Kind, d: Detail)
    ensures RecordsOf(SubmitCreate(st, k, Rejected(d)), k) == RecordsOf(st, k)
    ensures SameDrafts(SubmitCreate(st, k, Rejected(d)), st)
    ensures SubmitCreate(st, k, Rejected(d)).error == CreateErrorMessage(d, CreateFallbackMessage(k))
  {
  }
}
