/**
 The two server-held record kinds (sales-call transcripts and LinkedIn
 icebreakers) and the list operations both client and server apply to them.
 `createdAt` is the server timestamp, modelled as an opaque totally ordered key.
 */
module Records {

  /** The role level of an icebreaker when none is given, on both client and server. */
  const DefaultRoleLevel: string := "Mid-level"

  datatype Kind = TranscriptKind | IcebreakerKind {

    function Other(): Kind {
      match this
      case TranscriptKind => IcebreakerKind
      case IcebreakerKind => TranscriptKind
    }
  }

  /** A row as the server returns it; `insight`/`icebreakerAnalysis` are generated text. */
  datatype Record =
    | Transcript(id: int, createdAt: int, companyName: string, attendees: string,
                 date: string, transcript: string, insight: string)
    | Icebreaker(id: int, createdAt: int, prospectName: string, companyName: string,
                 linkedinBio: string, pitchDeck: string, roleLevel: string,
                 icebreakerAnalysis: string)
  {
    function KindOf(): Kind {
      if Transcript? then TranscriptKind else IcebreakerKind
    }
  }

  /** The `content_type` tag the server attaches to every row of a kind. */
  function ContentType(k: Kind): string
  {
    match k
    case TranscriptKind => "transcript"
    case IcebreakerKind => "linkedin_icebreaker"
  }

  predicate AllOfKind(s: seq<Record>, k: Kind) {
    forall i :: 0 <= i < |s| ==> s[i].KindOf() == k
  }

  predicate HasId(s: seq<Record>, id: int) {
    exists i :: 0 <= i < |s| && s[i].id == id
  }

  /** `a` is `b` with some elements dropped, the rest kept in order. */
  predicate IsSubsequence<T(==)>(a: seq<T>, b: seq<T>)
    decreases |b|
  {
    if |a| == 0 then true
    else if |b| == 0 then false
    else if a[0] == b[0] then IsSubsequence(a[1..], b[1..])
    else IsSubsequence(a, b[1..])
  }

  /**
   `list.filter(r => r.id !== id)`: every record with that id is gone, every
   other record stays, in its original order; an absent id changes nothing.
   */
  function RemoveId(s: seq<Record>, id: int): (r: seq<Record>)
    ensures forall x :: x in r <==> x in s && x.id != id
    ensures IsSubsequence(r, s)
    ensures !HasId(r, id)
    ensures !HasId(s, id) ==> r == s
    ensures |r| <= |s|
  {
    if |s| == 0 then []
    else
      var rest := RemoveId(s[1..], id);
      if s[0].id == id then
        assert |rest| > 0 ==> rest[0] in rest && rest[0] != s[0];
        rest
      else
        assert ([s[0]] + rest)[1..] == rest;
        assert !HasId(s, id) ==> !HasId(s[1..], id);
        [s[0]] + rest
  }

  /** How many times `x` occurs in `s`. */
  function Occurrences(s: seq<Record>, x: Record): nat {
    if |s| == 0 then 0 else (if s[0] == x then 1 else 0) + Occurrences(s[1..], x)
  }

  /** `Occurrences` is the multiplicity of `x` in the multiset of `s`. */
  lemma {:induction false} OccurrencesIsMultiplicity(s: seq<Record>, x: Record)
    ensures multiset(s)[x] == Occurrences(s, x)
  {
    if |s| > 0 {
      OccurrencesIsMultiplicity(s[1..], x);
      assert s == [s[0]] + s[1..];
    }
  }

  /**
   Removal keeps every other record as often as it occurred: duplicates of a
   record with a different id are neither merged nor dropped.
   */
  lemma {:induction false} RemoveIdKeepsCounts(s: seq<Record>, id: int, x: Record)
    requires x.id != id
    ensures Occurrences(RemoveId(s, id), x) == Occurrences(s, x)
  {
    if |s| > 0 {
      RemoveIdKeepsCounts(s[1..], id, x);
      if s[0].id != id {
        assert ([s[0]] + RemoveId(s[1..], id))[1..] == RemoveId(s[1..], id);
      }
    }
  }

  /** `RemoveIdKeepsCounts` for every record at once, as multiset multiplicities. */
  lemma RemoveIdKeepsAllCounts(s: seq<Record>, id: int)
    ensures forall x: Record :: x.id != id ==> multiset(RemoveId(s, id))[x] == multiset(s)[x]
  {
    forall x: Record | x.id != id
      ensures multiset(RemoveId(s, id))[x] == multiset(s)[x]
    {
      RemoveIdKeepsCounts(s, id, x);
      OccurrencesIsMultiplicity(s, x);
      OccurrencesIsMultiplicity(RemoveId(s, id), x);
    }
  }

  /** `s` back to front. */
  function Reverse<T>(s: seq<T>): (r: seq<T>)
    ensures |r| == |s|
    ensures forall i :: 0 <= i < |s| ==> r[i] == s[|s| - 1 - i]
  {
    if |s| == 0 then [] else Reverse(s[1..]) + [s[0]]
  }

  /** Removing an id a second time is a no-op. */
  lemma RemoveIdIdempotent(s: seq<Record>, id: int)
    ensures RemoveId(RemoveId(s, id), id) == RemoveId(s, id)
  {
  }

  /** Removing the id of a record just put at the head restores a list that did not have it. */
  lemma RemoveIdAfterPrepend(rec: Record, s: seq<Record>)
    requires !HasId(s, rec.id)
    ensures RemoveId([rec] + s, rec.id) == s
  {
    assert ([rec] + s)[1..] == s;
  }
}
