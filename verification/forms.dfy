/**
 The two client-side drafts (form state) and the field edit that the input
 handlers perform: `{...prev, [name]: value}` on the named field only.
 */
module Forms {
  import opened Records

  datatype TranscriptDraft = TranscriptDraft(
    companyName: string, attendees: string, date: string,
    transcript: string, customPrompt: string)

  datatype IcebreakerDraft = IcebreakerDraft(
    prospectName: string, companyName: string, linkedinBio: string,
    pitchDeck: string, roleLevel: string, customPrompt: string)

  /** The `name` attributes of the transcript form's inputs. */
  datatype TranscriptField = TCompanyName | TAttendees | TDate | TTranscript | TCustomPrompt

  /** The `name` attributes of the icebreaker form's inputs. */
  datatype IcebreakerField =
    IProspectName | ICompanyName | ILinkedinBio | IPitchDeck | IRoleLevel | ICustomPrompt

  /** The transcript draft on mount and after a successful create: all empty. */
  const EmptyTranscriptDraft: TranscriptDraft := TranscriptDraft("", "", "", "", "")

  /** The icebreaker draft on mount and after a successful create. */
  const InitialIcebreakerDraft: IcebreakerDraft :=
    IcebreakerDraft("", "", "", "", DefaultRoleLevel, "")

  function TranscriptValue(d: TranscriptDraft, f: TranscriptField): string {
    match f
    case TCompanyName => d.companyName
    case TAttendees => d.attendees
    case TDate => d.date
    case TTranscript => d.transcript
    case TCustomPrompt => d.customPrompt
  }

  function IcebreakerValue(d: IcebreakerDraft, f: IcebreakerField): string {
    match f
    case IProspectName => d.prospectName
    case ICompanyName => d.companyName
    case ILinkedinBio => d.linkedinBio
    case IPitchDeck => d.pitchDeck
    case IRoleLevel => d.roleLevel
    case ICustomPrompt => d.customPrompt
  }

  /** Editing one input sets that field and leaves every other field as it was. */
  function SetTranscriptField(d: TranscriptDraft, f: TranscriptField, v: string): (r: TranscriptDraft)
    ensures TranscriptValue(r, f) == v
    ensures forall g :: g != f ==> TranscriptValue(r, g) == TranscriptValue(d, g)
  {
    match f
    case TCompanyName => d.(companyName := v)
    case TAttendees => d.(attendees := v)
    case TDate => d.(date := v)
    case TTranscript => d.(transcript := v)
    case TCustomPrompt => d.(customPrompt := v)
  }

  /** Editing one input sets that field and leaves every other field as it was. */
  function SetIcebreakerField(d: IcebreakerDraft, f: IcebreakerField, v: string): (r: IcebreakerDraft)
    ensures IcebreakerValue(r, f) == v
    ensures forall g :: g != f ==> IcebreakerValue(r, g) == IcebreakerValue(d, g)
  {
    match f
    case IProspectName => d.(prospectName := v)
    case ICompanyName => d.(companyName := v)
    case ILinkedinBio => d.(linkedinBio := v)
    case IPitchDeck => d.(pitchDeck := v)
    case IRoleLevel => d.(roleLevel := v)
    case ICustomPrompt => d.(customPrompt := v)
  }

  /** A draft is determined by its field values. */
  lemma TranscriptDraftExtensional(a: TranscriptDraft, b: TranscriptDraft)
    requires forall f :: TranscriptValue(a, f) == TranscriptValue(b, f)
    ensures a == b
  {
    assert TranscriptValue(a, TCompanyName) == TranscriptValue(b, TCompanyName);
    assert TranscriptValue(a, TAttendees) == TranscriptValue(b, TAttendees);
    assert TranscriptValue(a, TDate) == TranscriptValue(b, TDate);
    assert TranscriptValue(a, TTranscript) == TranscriptValue(b, TTranscript);
    assert TranscriptValue(a, TCustomPrompt) == TranscriptValue(b, TCustomPrompt);
  }

  /** Re-entering a field's current value leaves the draft as it was; a later edit of the same field wins. */
  lemma TranscriptEditLaws(d: TranscriptDraft, f: TranscriptField, v: string, w: string)
    ensures SetTranscriptField(d, f, TranscriptValue(d, f)) == d
    ensures SetTranscriptField(SetTranscriptField(d, f, v), f, w) == SetTranscriptField(d, f, w)
  {
    TranscriptDraftExtensional(SetTranscriptField(d, f, TranscriptValue(d, f)), d);
    TranscriptDraftExtensional(SetTranscriptField(SetTranscriptField(d, f, v), f, w),
                               SetTranscriptField(d, f, w));
  }
}
