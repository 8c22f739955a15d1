/**
 The client's requests meeting the server's endpoints: the body the client
 builds from a draft, how it reads each response, and the state a submit
 leaves behind for each kind of answer.
 */
module ClientServer {
  import opened Wrappers
  import opened Text
  import opened Wire
  import opened Records
  import opened Forms
  import opened ErrorFormat
  import opened Validation
  import opened Endpoints
  import opened Sync
  import opened Feed

  /** `draft.custom_prompt || null`: an empty prompt is sent as `null`. */
  function PromptMember(p: string): (r: Option<string>)
    ensures r.None? <==> p == ""
    ensures r.Some? ==> r.value == p
  {
    if p == "" then None else Some(p)
  }

  /**
   The JSON body of `handleSubmit` as the server reads it. The date input's
   string is always sent, so the date member is never missing; `parse` is the
   server's date parser (ISO date text on success), left as a parameter.
   */
  function TranscriptRequest(d: TranscriptDraft, parse: string -> Option<string>): (b: TranscriptBody)
    ensures b.companyName == Some(d.companyName) && b.attendees == Some(d.attendees)
    ensures b.transcript == Some(d.transcript)
    ensures b.customPrompt.None? <==> d.customPrompt == ""
    ensures b.customPrompt.Some? ==> b.customPrompt.value == d.customPrompt
    ensures !b.date.DateAbsent?
    ensures b.date.DateParsed? <==> parse(d.date).Some?
    ensures b.date.DateParsed? ==> b.date.iso == parse(d.date).value
  {
    var date := match parse(d.date)
      case None => DateInvalid
      case Some(iso) => DateParsed(iso);
    TranscriptBody(Some(d.companyName), Some(d.attendees), date, Some(d.transcript),
                   PromptMember(d.customPrompt))
  }

  /**
   The JSON body of `handleIcebreakerSubmit`: every member is sent as typed,
   `role_level` included, so the server's default for an absent role level
   never applies; only an empty prompt is sent as `null`.
   */
  function IcebreakerRequest(d: IcebreakerDraft): (b: IcebreakerBody)
    ensures b.prospectName == Some(d.prospectName) && b.companyName == Some(d.companyName)
    ensures b.linkedinBio == Some(d.linkedinBio) && b.pitchDeck == Some(d.pitchDeck)
    ensures b.roleLevel == Some(d.roleLevel)
    ensures b.customPrompt.None? <==> d.customPrompt == ""
    ensures b.customPrompt.Some? ==> b.customPrompt.value == d.customPrompt
  {
    IcebreakerBody(Some(d.prospectName), Some(d.companyName), Some(d.linkedinBio),
                   Some(d.pitchDeck), Some(d.roleLevel), PromptMember(d.customPrompt))
  }

  /**
   `response.ok` decides: a 2xx body is the created row, anything else an
   error body. A received response is never a thrown request.
   */
  function CreateOutcomeOf(resp: Response<Record>): (o: CreateOutcome)
    ensures o.Created? <==> resp.Ok?
    ensures o.Created? ==> o.record == resp.body
    ensures o.Rejected? ==> o.detail == resp.detail
    ensures !o.Thrown?
  {
    match resp
    case Ok(rec) => Created(rec)
    case HttpError(_, d) => Rejected(d)
  }

  /**
   A delete's `response.ok`: 2xx is a deletion, anything else a refusal; the
   body is never read.
   */
  function DeleteOutcomeOf(resp: Response<string>): (o: DeleteOutcome)
    ensures o.Deleted? <==> resp.Ok?
    ensures !o.DeleteThrown?
  {
    if resp.Ok? then Deleted else Refused
  }

  /**
   A mount-time list response as the client reads it: a 2xx array replaces
   the list with its rows, any other status leaves it alone.
   */
  function ListOutcomeOf(resp: Result<seq<FeedItem>, int>): (o: LoadOutcome)
    ensures o.Loaded? <==> resp.Success?
    ensures o.Loaded? ==> |o.rows| == |resp.value|
    ensures o.Loaded? ==> forall j :: 0 <= j < |o.rows| ==> o.rows[j] == resp.value[j].record
    ensures !o.LoadThrown?
  {
    match resp
    case Success(items) => Loaded(seq(|items|, j requires 0 <= j < |items| => items[j].record))
    case Failure(_) => LoadRefused
  }

  /**
   `fetchTranscripts` and `fetchIcebreakers` send no query string, so after a
   successful mount load the client's list is the `min(10, rows)` newest rows
   of the table, newest first, and no other list or draft changes.
   */
  lemma MountLoadKeepsNewestRows(st: State, k: Kind, rows: seq<Record>)
    ensures var r := Load(st, k, ListOutcomeOf(ListPage(rows, k, DefaultOffset, DefaultListLimit)));
      && |RecordsOf(r, k)| == Min(DefaultListLimit, |rows|)
      && (forall j :: 0 <= j < |RecordsOf(r, k)| ==> RecordsOf(r, k)[j] == Sort(Tag(rows, k))[j].record)
      && (forall x :: x in RecordsOf(r, k) ==> x in rows)
      && RecordsOf(r, k.Other()) == RecordsOf(st, k.Other())
      && SameDrafts(r, st)
  {
    var page := ListPage(rows, k, DefaultOffset, DefaultListLimit);
    DefaultListPage(rows, k);
    var r := Load(st, k, ListOutcomeOf(page));
    forall x | x in RecordsOf(r, k) ensures x in rows {
      var j :| 0 <= j < |RecordsOf(r, k)| && RecordsOf(r, k)[j] == x;
      assert page.value[j] in page.value;
    }
  }

  /** The server uses the draft's prompt exactly when it is non-empty, otherwise its default. */
  lemma DraftPromptChoice(d: TranscriptDraft, parse: string -> Option<string>, e: IcebreakerDraft)
    ensures ChoosePrompt(TranscriptRequest(d, parse).customPrompt, TranscriptKind)
            == if d.customPrompt != "" then CustomPrompt(d.customPrompt) else DefaultPrompt(TranscriptKind)
    ensures ChoosePrompt(IcebreakerRequest(e).customPrompt, IcebreakerKind)
            == if e.customPrompt != "" then CustomPrompt(e.customPrompt) else DefaultPrompt(IcebreakerKind)
  {
  }

  /**
   Submitting a draft the server accepts, when the insert succeeds: the new
   row heads the list and holds what the user typed, the rest of the list is
   the old one, the draft is reset and the success text is shown.
   */
  lemma SubmitAcceptedTranscript(st: State, parse: string -> Option<string>, generate: Prompt -> string, id: int, at: int)
    requires AcceptsTranscript(TranscriptRequest(st.transcriptDraft, parse))
    ensures var d := st.transcriptDraft;
      var r := SubmitCreate(st, TranscriptKind,
                 CreateOutcomeOf(CreateTranscript(TranscriptRequest(d, parse), generate, Inserted(id, at))));
      && |r.transcripts| == |st.transcripts| + 1
      && r.transcripts[1..] == st.transcripts
      && r.transcripts[0] == Transcript(id, at, d.companyName, d.attendees, parse(d.date).value, d.transcript,
                                        generate(ChoosePrompt(PromptMember(d.customPrompt), TranscriptKind)))
      && r.transcriptDraft == EmptyTranscriptDraft
      && r.success == CreatedMessage(TranscriptKind) && r.error == ""
  {
    var d := st.transcriptDraft;
    var resp := CreateTranscript(TranscriptRequest(d, parse), generate, Inserted(id, at));
    var r := SubmitCreate(st, TranscriptKind, CreateOutcomeOf(resp));
    assert RecordsOf(r, TranscriptKind) == [resp.body] + RecordsOf(st, TranscriptKind);
    TranscriptDraftExtensional(r.transcriptDraft, EmptyTranscriptDraft);
  }

  /**
   Submitting a draft the server rejects: the error slot shows one
   "body.<member>: <message>" entry per failing member (never empty), while
   the list and the draft stay as they were so the user can correct it.
   */
  lemma SubmitRejectedTranscript(st: State, parse: string -> Option<string>, generate: Prompt -> string, ins: InsertOutcome)
    requires !AcceptsTranscript(TranscriptRequest(st.transcriptDraft, parse))
    ensures var body := TranscriptRequest(st.transcriptDraft, parse);
      var r := SubmitCreate(st, TranscriptKind, CreateOutcomeOf(CreateTranscript(body, generate, ins)));
      && r.error == EntriesText(TranscriptErrors(body))
      && r.error != ""
      && r.success == ""
      && r.transcripts == st.transcripts
      && r.transcriptDraft == st.transcriptDraft
  {
    var body := TranscriptRequest(st.transcriptDraft, parse);
    TranscriptErrorsExact(body);
    EntriesTextNonEmpty(TranscriptErrors(body));
  }

  /**
   The icebreaker counterpart: an accepted draft with a successful insert
   heads the list with the typed values, and the draft returns to its initial
   value ("Mid-level" role level).
   */
  lemma SubmitAcceptedIcebreaker(st: State, generate: Prompt -> string, id: int, at: int)
    requires AcceptsIcebreaker(IcebreakerRequest(st.icebreakerDraft))
    ensures var d := st.icebreakerDraft;
      var r := SubmitCreate(st, IcebreakerKind,
                 CreateOutcomeOf(CreateIcebreaker(IcebreakerRequest(d), generate, Inserted(id, at))));
      && r.icebreakers == [Icebreaker(id, at, d.prospectName, d.companyName, d.linkedinBio, d.pitchDeck,
                                      d.roleLevel, generate(ChoosePrompt(PromptMember(d.customPrompt), IcebreakerKind)))]
                          + st.icebreakers
      && r.icebreakerDraft == Initial.icebreakerDraft
      && r.transcripts == st.transcripts
      && r.success == CreatedMessage(IcebreakerKind) && r.error == ""
  {
  }

  /** The icebreaker counterpart of a rejected submit. */
  lemma SubmitRejectedIcebreaker(st: State, generate: Prompt -> string, ins: InsertOutcome)
    requires !AcceptsIcebreaker(IcebreakerRequest(st.icebreakerDraft))
    ensures var body := IcebreakerRequest(st.icebreakerDraft);
      var r := SubmitCreate(st, IcebreakerKind, CreateOutcomeOf(CreateIcebreaker(body, generate, ins)));
      && r.error == EntriesText(IcebreakerErrors(body))
      && r.error != ""
      && r.success == ""
      && r.icebreakers == st.icebreakers
      && r.icebreakerDraft == st.icebreakerDraft
  {
    var body := IcebreakerRequest(st.icebreakerDraft);
    IcebreakerErrorsExact(body);
    EntriesTextNonEmpty(IcebreakerErrors(body));
  }

  /**
   The form's role level is always sent, so emptying that input stores an
   empty role level: the server's "Mid-level" default never applies to
   requests from this client.
   */
  lemma EmptyRoleLevelIsStoredEmpty(d: IcebreakerDraft, generate: Prompt -> string, id: int, at: int)
    requires d.roleLevel == ""
    requires AcceptsIcebreaker(IcebreakerRequest(d))
    ensures var resp := CreateIcebreaker(IcebreakerRequest(d), generate, Inserted(id, at));
      resp.Ok? && resp.body.roleLevel == ""
  {
  }

  /**
   Deleting an id the server no longer has: the server confirms, so the
   client shows its success text and the list is unchanged.
   */
  lemma DeleteOfAbsentIdShowsSuccess(st: State, k: Kind, rows: seq<Record>, id: int)
    requires !HasId(rows, id) && !HasId(RecordsOf(st, k), id)
    ensures var r := Delete(st, k, id, DeleteOutcomeOf(DeleteRow(rows, k, id, None).0));
      && RecordsOf(r, k) == RecordsOf(st, k)
      && r.success == DeletedMessage(k)
  {
  }

  /** A database failure during a delete is a non-2xx answer, which the client ignores entirely. */
  lemma FailedServerDeleteChangesNothing(st: State, k: Kind, rows: seq<Record>, id: int, m: string)
    ensures Delete(st, k, id, DeleteOutcomeOf(DeleteRow(rows, k, id, Some(m)).0)) == st
  {
  }
}
