/**
 How the client turns a rejected create's error body into the text shown in
 the error slot: each validation entry becomes `loc.join('.') + ": " + msg`,
 entries are joined with ", "; a non-list detail is shown as is when it is a
 non-empty string, otherwise a per-kind fallback is shown.
 */
module ErrorFormat {
  import opened Wrappers
  import opened Text
  import opened Wire

  /** How `Array.prototype.join` renders one location step. */
  function LocPartText(p: LocPart): string {
    match p
    case Key(k) => k
    case Index(i) => IntToDecimal(i)
  }

  function LocText(loc: seq<LocPart>): string {
    Join(seq(|loc|, i requires 0 <= i < |loc| => LocPartText(loc[i])), ".")
  }

  /** A template literal over `err.loc?.join('.')` prints "undefined" when `loc` is missing. */
  function EntryText(e: ErrEntry): string {
    var where := match e.loc
      case None => "undefined"
      case Some(loc) => LocText(loc);
    where + ": " + e.msg
  }

  function EntriesText(es: seq<ErrEntry>): string {
    Join(seq(|es|, i requires 0 <= i < |es| => EntryText(es[i])), ", ")
  }

  /**
   The error message of a non-ok create response. A list detail, even an empty
   one (an empty array is truthy), is always rendered entry by entry; a string
   detail is shown only when non-empty.
   */
  function CreateErrorMessage(d: Detail, fallback: string): (r: string)
    ensures d.Entries? ==> r == EntriesText(d.entries)
    ensures d.Entries? && |d.entries| == 0 ==> r == ""
    ensures d.Entries? && |d.entries| == 1 ==> r == EntryText(d.entries[0])
    ensures d.Message? && d.text != "" ==> r == d.text
    ensures d.NoDetail? || d == Message("") ==> r == fallback
  {
    match d
    case Entries(es) => EntriesText(es)
    case Message(t) => if t != "" then t else fallback
    case NoDetail => fallback
  }

  /** Rendering is compositional: two runs of entries are rendered and joined by ", ". */
  lemma EntriesTextAppend(es: seq<ErrEntry>, fs: seq<ErrEntry>)
    requires |es| > 0 && |fs| > 0
    ensures EntriesText(es + fs) == EntriesText(es) + ", " + EntriesText(fs)
  {
    var a := seq(|es|, i requires 0 <= i < |es| => EntryText(es[i]));
    var b := seq(|fs|, i requires 0 <= i < |fs| => EntryText(fs[i]));
    var ab := es + fs;
    assert seq(|ab|, i requires 0 <= i < |ab| => EntryText(ab[i])) == a + b;
    JoinAppend(a, b, ", ");
  }

  /**
   A location made only of keys that contain no '.' can be read back from
   its rendering by splitting on '.'.
   */
  lemma LocTextRecoverable(keys: seq<string>)
    requires |keys| >= 1
    requires forall i :: 0 <= i < |keys| ==> '.' !in keys[i]
    ensures Split(LocText(seq(|keys|, i requires 0 <= i < |keys| => Key(keys[i]))), '.') == keys
  {
    var loc := seq(|keys|, i requires 0 <= i < |keys| => Key(keys[i]));
    assert seq(|loc|, i requires 0 <= i < |loc| => LocPartText(loc[i])) == keys;
    SplitOfJoin(keys, '.');
  }

  /** A missing required field of a request body is rendered as "body.<field>: <msg>". */
  lemma MissingPitchDeckMessage()
    ensures CreateErrorMessage(
              Entries([ErrEntry(Some([Key("body"), Key("pitch_deck")]), "field required")]),
              "Failed to generate icebreaker")
            == "body.pitch_deck: field required"
  {
    var loc := [Key("body"), Key("pitch_deck")];
    assert seq(|loc|, i requires 0 <= i < |loc| => LocPartText(loc[i])) == ["body", "pitch_deck"];
    assert Join(["body", "pitch_deck"], ".") == "body" + "." + Join(["pitch_deck"], ".");
    assert LocText(loc) == "body.pitch_deck";
    var es := [ErrEntry(Some(loc), "field required")];
    assert seq(|es|, i requires 0 <= i < |es| => EntryText(es[i])) == [EntryText(es[0])];
  }

  /** Array indices in a location are printed in decimal, as JavaScript does. */
  lemma IndexLocMessage()
    ensures EntryText(ErrEntry(Some([Key("body"), Index(12)]), "bad")) == "body.12: bad"
  {
    var loc := [Key("body"), Index(12)];
    assert NatToDecimal(12) == NatToDecimal(1) + [DigitChar(2)];
    assert IntToDecimal(12) == "12";
    assert seq(|loc|, i requires 0 <= i < |loc| => LocPartText(loc[i])) == ["body", "12"];
    assert Join(["body", "12"], ".") == "body" + "." + Join(["12"], ".");
    assert LocText(loc) == "body.12";
  }

  /** A non-empty list of entries never renders as the empty string. */
  lemma EntriesTextNonEmpty(es: seq<ErrEntry>)
    requires |es| > 0
    ensures EntriesText(es) != ""
  {
    var texts := seq(|es|, i requires 0 <= i < |es| => EntryText(es[i]));
    JoinKeepsHead(texts, ", ");
    assert |texts[0]| >= 2;
  }
}
