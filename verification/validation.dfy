/**
 The server's request models: which create bodies are accepted, the
 validated values they yield, and the validation entries a rejected body
 produces. Lengths are counted in characters; messages follow pydantic 1.
 */
module Validation {
  import opened Wrappers
  import opened Text
  import opened Wire
  import opened Records

  /** The `date` member of a transcript body; ISO parsing itself is outside the model. */
  datatype DateInput = DateAbsent | DateInvalid | DateParsed(iso: string)

  /** A transcript create body; `None` is a member absent from the JSON object. */
  datatype TranscriptBody = TranscriptBody(
    companyName: Option<string>, attendees: Option<string>, date: DateInput,
    transcript: Option<string>, customPrompt: Option<string>)

  /** An icebreaker create body; `None` is a member absent from the JSON object. */
  datatype IcebreakerBody = IcebreakerBody(
    prospectName: Option<string>, companyName: Option<string>, linkedinBio: Option<string>,
    pitchDeck: Option<string>, roleLevel: Option<string>, customPrompt: Option<string>)

  /** A validated `TranscriptCreate`. */
  datatype TranscriptCreate = TranscriptCreate(
    companyName: string, attendees: string, date: string,
    transcript: string, customPrompt: Option<string>)

  /** A validated `LinkedInIcebreakerCreate`. */
  datatype IcebreakerCreate = IcebreakerCreate(
    prospectName: string, companyName: string, linkedinBio: string,
    pitchDeck: string, roleLevel: string, customPrompt: Option<string>)

  /** A `min_length`/`max_length` pair; `max == None` means unbounded. */
  datatype Bounds = Bounds(min: nat, max: Option<nat>)

  const CompanyNameBounds: Bounds := Bounds(1, Some(100))
  const AttendeesBounds: Bounds := Bounds(1, Some(500))
  const TranscriptTextBounds: Bounds := Bounds(10, None)
  const ProspectNameBounds: Bounds := Bounds(1, Some(100))
  const LinkedinBioBounds: Bounds := Bounds(10, None)
  const PitchDeckBounds: Bounds := Bounds(10, None)
  const RoleLevelBounds: Bounds := Bounds(0, Some(50))

  predicate WithinBounds(s: string, b: Bounds) {
    b.min <= |s| && (b.max.Some? ==> |s| <= b.max.value)
  }

  /** A required string member is present and of admissible length. */
  predicate FieldOk(v: Option<string>, b: Bounds) {
    v.Some? && WithinBounds(v.value, b)
  }

  /** A member with a default is either absent or of admissible length. */
  predicate OptionalFieldOk(v: Option<string>, b: Bounds) {
    v.None? || WithinBounds(v.value, b)
  }

  /** The acceptance rule of `TranscriptCreate`, stated field by field. */
  predicate AcceptsTranscript(b: TranscriptBody) {
    && FieldOk(b.companyName, CompanyNameBounds)
    && FieldOk(b.attendees, AttendeesBounds)
    && b.date.DateParsed?
    && FieldOk(b.transcript, TranscriptTextBounds)
  }

  /** The acceptance rule of `LinkedInIcebreakerCreate`, stated field by field. */
  predicate AcceptsIcebreaker(b: IcebreakerBody) {
    && FieldOk(b.prospectName, ProspectNameBounds)
    && FieldOk(b.companyName, CompanyNameBounds)
    && FieldOk(b.linkedinBio, LinkedinBioBounds)
    && FieldOk(b.pitchDeck, PitchDeckBounds)
    && OptionalFieldOk(b.roleLevel, RoleLevelBounds)
  }

  function BodyLoc(name: string): Option<seq<LocPart>> {
    Some([Key("body"), Key(name)])
  }

  /** Some entry of `es` is located at body member `name`. */
  predicate Reports(es: seq<ErrEntry>, name: string) {
    exists i :: 0 <= i < |es| && es[i].loc == BodyLoc(name)
  }

  /** The entries for one string member: none when it is fine, otherwise exactly one. */
  function FieldErrors(name: string, v: Option<string>, b: Bounds): (es: seq<ErrEntry>)
    ensures |es| == 0 <==> FieldOk(v, b)
    ensures |es| <= 1
    ensures forall i :: 0 <= i < |es| ==> es[i].loc == BodyLoc(name)
  {
    match v
    case None => [ErrEntry(BodyLoc(name), "field required")]
    case Some(s) =>
      if |s| < b.min then
        [ErrEntry(BodyLoc(name), "ensure this value has at least " + IntToDecimal(b.min) + " characters")]
      else if b.max.Some? && |s| > b.max.value then
        [ErrEntry(BodyLoc(name), "ensure this value has at most " + IntToDecimal(b.max.value) + " characters")]
      else []
  }

  function OptionalFieldErrors(name: string, v: Option<string>, b: Bounds): (es: seq<ErrEntry>)
    ensures |es| == 0 <==> OptionalFieldOk(v, b)
    ensures forall i :: 0 <= i < |es| ==> es[i].loc == BodyLoc(name)
  {
    if v.None? then [] else FieldErrors(name, v, b)
  }

  function DateErrors(d: DateInput): (es: seq<ErrEntry>)
    ensures |es| == 0 <==> d.DateParsed?
    ensures forall i :: 0 <= i < |es| ==> es[i].loc == BodyLoc("date")
  {
    match d
    case DateAbsent => [ErrEntry(BodyLoc("date"), "field required")]
    case DateInvalid => [ErrEntry(BodyLoc("date"), "invalid date format")]
    case DateParsed(_) => []
  }

  lemma ReportsAppend(a: seq<ErrEntry>, b: seq<ErrEntry>, name: string)
    ensures Reports(a + b, name) <==> Reports(a, name) || Reports(b, name)
  {
    if Reports(a + b, name) {
      var i :| 0 <= i < |a + b| && (a + b)[i].loc == BodyLoc(name);
      if i >= |a| {
        assert b[i - |a|].loc == BodyLoc(name);
      }
    }
    if Reports(b, name) {
      var i :| 0 <= i < |b| && b[i].loc == BodyLoc(name);
      assert (a + b)[|a| + i] == b[i];
    }
    if Reports(a, name) {
      var i :| 0 <= i < |a| && a[i].loc == BodyLoc(name);
      assert (a + b)[i] == a[i];
    }
  }

  lemma ReportsSingleField(es: seq<ErrEntry>, field: string, name: string)
    requires forall i :: 0 <= i < |es| ==> es[i].loc == BodyLoc(field)
    ensures Reports(es, name) <==> |es| > 0 && name == field
  {
    if |es| > 0 && name == field {
      assert es[0].loc == BodyLoc(name);
    }
  }

  /** The entries of a transcript body, in the order the model declares its fields. */
  function TranscriptErrors(b: TranscriptBody): seq<ErrEntry> {
    FieldErrors("company_name", b.companyName, CompanyNameBounds)
    + FieldErrors("attendees", b.attendees, AttendeesBounds)
    + DateErrors(b.date)
    + FieldErrors("transcript", b.transcript, TranscriptTextBounds)
  }

  /** The entries of an icebreaker body, in the order the model declares its fields. */
  function IcebreakerErrors(b: IcebreakerBody): seq<ErrEntry> {
    FieldErrors("prospect_name", b.prospectName, ProspectNameBounds)
    + FieldErrors("company_name", b.companyName, CompanyNameBounds)
    + FieldErrors("linkedin_bio", b.linkedinBio, LinkedinBioBounds)
    + FieldErrors("pitch_deck", b.pitchDeck, PitchDeckBounds)
    + OptionalFieldErrors("role_level", b.roleLevel, RoleLevelBounds)
  }

  /** Each transcript member is reported exactly when its own constraint fails. */
  lemma TranscriptErrorsExact(b: TranscriptBody)
    ensures |TranscriptErrors(b)| == 0 <==> AcceptsTranscript(b)
    ensures Reports(TranscriptErrors(b), "company_name") <==> !FieldOk(b.companyName, CompanyNameBounds)
    ensures Reports(TranscriptErrors(b), "attendees") <==> !FieldOk(b.attendees, AttendeesBounds)
    ensures Reports(TranscriptErrors(b), "date") <==> !b.date.DateParsed?
    ensures Reports(TranscriptErrors(b), "transcript") <==> !FieldOk(b.transcript, TranscriptTextBounds)
    ensures !Reports(TranscriptErrors(b), "custom_prompt")
  {
    var c := FieldErrors("company_name", b.companyName, CompanyNameBounds);
    var a := FieldErrors("attendees", b.attendees, AttendeesBounds);
    var d := DateErrors(b.date);
    var t := FieldErrors("transcript", b.transcript, TranscriptTextBounds);
    forall name | name in {"company_name", "attendees", "date", "transcript", "custom_prompt"}
      ensures Reports(c + a + d + t, name) <==>
        (Reports(c, name) || Reports(a, name) || Reports(d, name) || Reports(t, name))
    {
      ReportsAppend(c + a + d, t, name);
      ReportsAppend(c + a, d, name);
      ReportsAppend(c, a, name);
    }
    forall name | name in {"company_name", "attendees", "date", "transcript", "custom_prompt"}
      ensures Reports(c, name) <==> |c| > 0 && name == "company_name"
      ensures Reports(a, name) <==> |a| > 0 && name == "attendees"
      ensures Reports(d, name) <==> |d| > 0 && name == "date"
      ensures Reports(t, name) <==> |t| > 0 && name == "transcript"
    {
      ReportsSingleField(c, "company_name", name);
      ReportsSingleField(a, "attendees", name);
      ReportsSingleField(d, "date", name);
      ReportsSingleField(t, "transcript", name);
    }
  }

  /** Each icebreaker member is reported exactly when its own constraint fails. */
  lemma IcebreakerErrorsExact(b: IcebreakerBody)
    ensures |IcebreakerErrors(b)| == 0 <==> AcceptsIcebreaker(b)
    ensures Reports(IcebreakerErrors(b), "prospect_name") <==> !FieldOk(b.prospectName, ProspectNameBounds)
    ensures Reports(IcebreakerErrors(b), "company_name") <==> !FieldOk(b.companyName, CompanyNameBounds)
    ensures Reports(IcebreakerErrors(b), "linkedin_bio") <==> !FieldOk(b.linkedinBio, LinkedinBioBounds)
    ensures Reports(IcebreakerErrors(b), "pitch_deck") <==> !FieldOk(b.pitchDeck, PitchDeckBounds)
    ensures Reports(IcebreakerErrors(b), "role_level") <==> !OptionalFieldOk(b.roleLevel, RoleLevelBounds)
    ensures !Reports(IcebreakerErrors(b), "custom_prompt")
  {
    var p := FieldErrors("prospect_name", b.prospectName, ProspectNameBounds);
    var c := FieldErrors("company_name", b.companyName, CompanyNameBounds);
    var l := FieldErrors("linkedin_bio", b.linkedinBio, LinkedinBioBounds);
    var d := FieldErrors("pitch_deck", b.pitchDeck, PitchDeckBounds);
    var r := OptionalFieldErrors("role_level", b.roleLevel, RoleLevelBounds);
    ReportsOfFive(p, c, l, d, r, "prospect_name", "company_name", "linkedin_bio", "pitch_deck", "role_level", "prospect_name");
    ReportsOfFive(p, c, l, d, r, "prospect_name", "company_name", "linkedin_bio", "pitch_deck", "role_level", "company_name");
    ReportsOfFive(p, c, l, d, r, "prospect_name", "company_name", "linkedin_bio", "pitch_deck", "role_level", "linkedin_bio");
    ReportsOfFive(p, c, l, d, r, "prospect_name", "company_name", "linkedin_bio", "pitch_deck", "role_level", "pitch_deck");
    ReportsOfFive(p, c, l, d, r, "prospect_name", "company_name", "linkedin_bio", "pitch_deck", "role_level", "role_level");
    ReportsOfFive(p, c, l, d, r, "prospect_name", "company_name", "linkedin_bio", "pitch_deck", "role_level", "custom_prompt");
  }

  /** Which member a concatenation of five single-member entry lists reports. */
  lemma ReportsOfFive(p: seq<ErrEntry>, c: seq<ErrEntry>, l: seq<ErrEntry>, d: seq<ErrEntry>, r: seq<ErrEntry>,
                      np: string, nc: string, nl: string, nd: string, nr: string, name: string)
    requires forall i :: 0 <= i < |p| ==> p[i].loc == BodyLoc(np)
    requires forall i :: 0 <= i < |c| ==> c[i].loc == BodyLoc(nc)
    requires forall i :: 0 <= i < |l| ==> l[i].loc == BodyLoc(nl)
    requires forall i :: 0 <= i < |d| ==> d[i].loc == BodyLoc(nd)
    requires forall i :: 0 <= i < |r| ==> r[i].loc == BodyLoc(nr)
    ensures Reports(p + c + l + d + r, name) <==>
      (|p| > 0 && name == np) || (|c| > 0 && name == nc) || (|l| > 0 && name == nl)
      || (|d| > 0 && name == nd) || (|r| > 0 && name == nr)
  {
    ReportsAppend(p + c + l + d, r, name);
    ReportsAppend(p + c + l, d, name);
    ReportsAppend(p + c, l, name);
    ReportsAppend(p, c, name);
    ReportsSingleField(p, np, name);
    ReportsSingleField(c, nc, name);
    ReportsSingleField(l, nl, name);
    ReportsSingleField(d, nd, name);
    ReportsSingleField(r, nr, name);
  }

  /**
   Parsing a transcript body into `TranscriptCreate`: accepted exactly when
   every constraint holds, in which case the values are carried over as sent;
   otherwise the non-empty list of entries for the failing members.
   */
  function ValidateTranscript(b: TranscriptBody): (r: Result<TranscriptCreate, seq<ErrEntry>>)
    ensures r.Success? <==> AcceptsTranscript(b)
    ensures r.Success? ==>
      && Some(r.value.companyName) == b.companyName
      && Some(r.value.attendees) == b.attendees
      && DateParsed(r.value.date) == b.date
      && Some(r.value.transcript) == b.transcript
      && r.value.customPrompt == b.customPrompt
    ensures r.Failure? ==> |r.error| > 0 && r.error == TranscriptErrors(b)
  {
    TranscriptErrorsExact(b);
    var es := TranscriptErrors(b);
    if |es| == 0 then
      Success(TranscriptCreate(b.companyName.value, b.attendees.value, b.date.iso,
                               b.transcript.value, b.customPrompt))
    else Failure(es)
  }

  /**
   Parsing an icebreaker body into `LinkedInIcebreakerCreate`; an absent
   `role_level` takes the default "Mid-level", a present one is kept even
   when empty.
   */
  function ValidateIcebreaker(b: IcebreakerBody): (r: Result<IcebreakerCreate, seq<ErrEntry>>)
    ensures r.Success? <==> AcceptsIcebreaker(b)
    ensures r.Success? ==>
      && Some(r.value.prospectName) == b.prospectName
      && Some(r.value.companyName) == b.companyName
      && Some(r.value.linkedinBio) == b.linkedinBio
      && Some(r.value.pitchDeck) == b.pitchDeck
      && r.value.roleLevel == b.roleLevel.GetOr(DefaultRoleLevel)
      && |r.value.roleLevel| <= 50
      && r.value.customPrompt == b.customPrompt
    ensures r.Failure? ==> |r.error| > 0 && r.error == IcebreakerErrors(b)
  {
    IcebreakerErrorsExact(b);
    var es := IcebreakerErrors(b);
    if |es| == 0 then
      Success(IcebreakerCreate(b.prospectName.value, b.companyName.value, b.linkedinBio.value,
                               b.pitchDeck.value, b.roleLevel.GetOr(DefaultRoleLevel), b.customPrompt))
    else Failure(es)
  }
}
