/**
 The server's write endpoints: create (validate, generate the analysis,
 store, return the stored row) and delete. The language-model call and the
 database are inputs: `generate` yields the analysis text for a system prompt
 (the model's answer or the built-in fallback), and the insert/delete outcome
 is given.
 */
module Endpoints {
  import opened Wrappers
  import opened Text
  import opened Wire
  import opened Records
  import opened Validation

  /** The system prompt of an analysis request: the caller's own, or the kind's built-in one. */
  datatype Prompt = CustomPrompt(text: string) | DefaultPrompt(kind: Kind)

  /** An HTTP response: a 2xx body, or an error status with FastAPI's `detail`. */
  datatype Response<T> = Ok(body: T) | HttpError(status: int, detail: Detail)

  /** What the database insert returned: the new row's id and timestamp, no rows, or an exception. */
  datatype InsertOutcome = Inserted(id: int, createdAt: int) | InsertedNothing | StoreRaised(message: string)

  const TranscriptInsertFailed: string := "Failed to create transcript"
  const IcebreakerInsertFailed: string := "Failed to create LinkedIn icebreaker"

  /** `custom_prompt if custom_prompt else DEFAULT_…_PROMPT`: an empty string counts as absent. */
  function ChoosePrompt(custom: Option<string>, k: Kind): (p: Prompt)
    ensures p.CustomPrompt? <==> custom.Some? && custom.value != ""
    ensures p.CustomPrompt? ==> p.text == custom.value
    ensures p.DefaultPrompt? ==> p.kind == k
  {
    if custom.Some? && custom.value != "" then CustomPrompt(custom.value) else DefaultPrompt(k)
  }

  /**
   `except Exception as e: raise HTTPException(status_code=500, detail=str(e))`
   applied to an `HTTPException` raised inside the `try`: its status is lost
   and its text becomes "<status>: <detail>".
   */
  function CatchAll(status: int, detail: string): (r: Response<Record>)
    ensures r.HttpError? && r.status == 500
  {
    HttpError(500, Message(IntToDecimal(status) + ": " + detail))
  }

  function TranscriptRow(v: TranscriptCreate, insight: string, id: int, createdAt: int): Record {
    Transcript(id, createdAt, v.companyName, v.attendees, v.date, v.transcript, insight)
  }

  function IcebreakerRow(v: IcebreakerCreate, analysis: string, id: int, createdAt: int): Record {
    Icebreaker(id, createdAt, v.prospectName, v.companyName, v.linkedinBio, v.pitchDeck,
               v.roleLevel, analysis)
  }

  /**
   `POST /transcripts` as written: the 400 raised for an insert that returned
   no rows is itself caught by the handler's catch-all and re-raised as 500.
   */
  function CreateTranscriptAsWritten(b: TranscriptBody, generate: Prompt -> string, ins: InsertOutcome)
    : (r: Response<Record>)
    ensures AcceptsTranscript(b) && ins.InsertedNothing? ==> r.HttpError? && r.status == 500
    ensures !(AcceptsTranscript(b) && ins.InsertedNothing?) ==> r == CreateTranscript(b, generate, ins)
  {
    match ValidateTranscript(b)
    case Failure(es) => HttpError(422, Entries(es))
    case Success(v) =>
      var insight := generate(ChoosePrompt(v.customPrompt, TranscriptKind));
      match ins
      case Inserted(id, at) => Ok(TranscriptRow(v, insight, id, at))
      case InsertedNothing => CatchAll(400, TranscriptInsertFailed)
      case StoreRaised(m) => HttpError(500, Message(m))
  }

  /**
   `POST /transcripts` with the empty insert reported as the intended 400.
   A rejected body yields 422 with one entry per failing member; an accepted
   one yields the stored row, which carries the request's values and the text
   generated for the chosen prompt.
   */
  function CreateTranscript(b: TranscriptBody, generate: Prompt -> string, ins: InsertOutcome)
    : (r: Response<Record>)
    ensures !AcceptsTranscript(b) ==> r == HttpError(422, Entries(TranscriptErrors(b)))
    ensures AcceptsTranscript(b) && ins.Inserted? ==>
      && r.Ok? && r.body.Transcript?
      && r.body.id == ins.id && r.body.createdAt == ins.createdAt
      && Some(r.body.companyName) == b.companyName
      && Some(r.body.attendees) == b.attendees
      && DateParsed(r.body.date) == b.date
      && Some(r.body.transcript) == b.transcript
      && r.body.insight == generate(ChoosePrompt(b.customPrompt, TranscriptKind))
    ensures AcceptsTranscript(b) && ins.InsertedNothing? ==>
      r == HttpError(400, Message(TranscriptInsertFailed))
    ensures AcceptsTranscript(b) && ins.StoreRaised? ==> r == HttpError(500, Message(ins.message))
  {
    match ValidateTranscript(b)
    case Failure(es) => HttpError(422, Entries(es))
    case Success(v) =>
      var insight := generate(ChoosePrompt(v.customPrompt, TranscriptKind));
      match ins
      case Inserted(id, at) => Ok(TranscriptRow(v, insight, id, at))
      case InsertedNothing => HttpError(400, Message(TranscriptInsertFailed))
      case StoreRaised(m) => HttpError(500, Message(m))
  }

  /** `POST /linkedin-icebreakers` as written: the same catch-all turns the 400 into 500. */
  function CreateIcebreakerAsWritten(b: IcebreakerBody, generate: Prompt -> string, ins: InsertOutcome)
    : (r: Response<Record>)
    ensures AcceptsIcebreaker(b) && ins.InsertedNothing? ==> r.HttpError? && r.status == 500
    ensures !(AcceptsIcebreaker(b) && ins.InsertedNothing?) ==> r == CreateIcebreaker(b, generate, ins)
  {
    match ValidateIcebreaker(b)
    case Failure(es) => HttpError(422, Entries(es))
    case Success(v) =>
      var analysis := generate(ChoosePrompt(v.customPrompt, IcebreakerKind));
      match ins
      case Inserted(id, at) => Ok(IcebreakerRow(v, analysis, id, at))
      case InsertedNothing => CatchAll(400, IcebreakerInsertFailed)
      case StoreRaised(m) => HttpError(500, Message(m))
  }

  /**
   `POST /linkedin-icebreakers` with the empty insert reported as the
   intended 400. An accepted body is stored with its values, `role_level`
   defaulting to "Mid-level" only when absent.
   */
  function CreateIcebreaker(b: IcebreakerBody, generate: Prompt -> string, ins: InsertOutcome)
    : (r: Response<Record>)
    ensures !AcceptsIcebreaker(b) ==> r == HttpError(422, Entries(IcebreakerErrors(b)))
    ensures AcceptsIcebreaker(b) && ins.Inserted? ==>
      && r.Ok? && r.body.Icebreaker?
      && r.body.id == ins.id && r.body.createdAt == ins.createdAt
      && Some(r.body.prospectName) == b.prospectName
      && Some(r.body.companyName) == b.companyName
      && Some(r.body.linkedinBio) == b.linkedinBio
      && Some(r.body.pitchDeck) == b.pitchDeck
      && r.body.roleLevel == b.roleLevel.GetOr(DefaultRoleLevel)
      && r.body.icebreakerAnalysis == generate(ChoosePrompt(b.customPrompt, IcebreakerKind))
    ensures AcceptsIcebreaker(b) && ins.InsertedNothing? ==>
      r == HttpError(400, Message(IcebreakerInsertFailed))
    ensures AcceptsIcebreaker(b) && ins.StoreRaised? ==> r == HttpError(500, Message(ins.message))
  {
    match ValidateIcebreaker(b)
    case Failure(es) => HttpError(422, Entries(es))
    case Success(v) =>
      var analysis := generate(ChoosePrompt(v.customPrompt, IcebreakerKind));
      match ins
      case Inserted(id, at) => Ok(IcebreakerRow(v, analysis, id, at))
      case InsertedNothing => HttpError(400, Message(IcebreakerInsertFailed))
      case StoreRaised(m) => HttpError(500, Message(m))
  }

  /** A caught 400 is re-raised as 500 whose text starts with "400: ". */
  lemma CatchAllOf400(detail: string)
    ensures CatchAll(400, detail) == HttpError(500, Message("400: " + detail))
  {
    assert IntToDecimal(400) == NatToDecimal(40) + [DigitChar(0)];
    assert NatToDecimal(40) == NatToDecimal(4) + [DigitChar(0)];
    assert IntToDecimal(400) == "400";
    assert IntToDecimal(400) + ": " == "400: ";
  }

  /** The as-written transcript endpoint answers an empty insert with 500, not the 400 it raises. */
  lemma EmptyTranscriptInsertReportedAs500(b: TranscriptBody, generate: Prompt -> string)
    requires AcceptsTranscript(b)
    ensures CreateTranscriptAsWritten(b, generate, InsertedNothing)
            == HttpError(500, Message("400: " + TranscriptInsertFailed))
    ensures CreateTranscript(b, generate, InsertedNothing).status == 400
  {
    CatchAllOf400(TranscriptInsertFailed);
  }

  /** The as-written icebreaker endpoint answers an empty insert with 500, not the 400 it raises. */
  lemma EmptyIcebreakerInsertReportedAs500(b: IcebreakerBody, generate: Prompt -> string)
    requires AcceptsIcebreaker(b)
    ensures CreateIcebreakerAsWritten(b, generate, InsertedNothing)
            == HttpError(500, Message("400: " + IcebreakerInsertFailed))
    ensures CreateIcebreaker(b, generate, InsertedNothing).status == 400
  {
    CatchAllOf400(IcebreakerInsertFailed);
  }

  /** The message a delete endpoint answers with. */
  function DeleteConfirmation(k: Kind): string {
    match k
    case TranscriptKind => "Transcript deleted successfully"
    case IcebreakerKind => "LinkedIn icebreaker deleted successfully"
  }

  /**
   `DELETE /transcripts/{id}` and `DELETE /linkedin-icebreakers/{id}`: the
   table loses every row with that id and the confirmation is sent whether
   or not such a row existed; only an exception from the database (`raised`)
   yields 500, with the table as it was.
   */
  function DeleteRow(rows: seq<Record>, k: Kind, id: int, raised: Option<string>)
    : (r: (Response<string>, seq<Record>))
    ensures raised.None? ==> r.0 == Ok(DeleteConfirmation(k))
    ensures raised.None? ==>
      && !HasId(r.1, id)
      && (forall x :: x in r.1 <==> x in rows && x.id != id)
      && (forall x: Record :: x.id != id ==> multiset(r.1)[x] == multiset(rows)[x])
      && IsSubsequence(r.1, rows)
    ensures raised.Some? ==> r.0 == HttpError(500, Message(raised.value)) && r.1 == rows
  {
    match raised
    case None =>
      RemoveIdKeepsAllCounts(rows, id);
      (Ok(DeleteConfirmation(k)), RemoveId(rows, id))
    case Some(m) => (HttpError(500, Message(m)), rows)
  }

  /** Deleting an id that no row has still answers with the confirmation and changes nothing. */
  lemma DeleteOfAbsentIdSucceeds(rows: seq<Record>, k: Kind, id: int)
    requires !HasId(rows, id)
    ensures DeleteRow(rows, k, id, None) == (Ok(DeleteConfirmation(k)), rows)
  {
  }
}
