/**
 The wire-name codec of a Glance v2 image status. The status is a closed set of
 eight constants, one of which (Unrecognized) stands for any status the server reports
 that the client does not know. Parsing upper-cases the text and looks the constant up
 by its declared name; it never fails. Serialising emits the lower-cased name.
 */
module ImageStatus {
  import opened Wrappers
  import opened Ascii

  datatype Status =
    | Unrecognized
    | Queued
    | Saving
    | Active
    | Deactivated
    | Killed
    | Deleted
    | PendingDelete

  /** The declared name of each constant, as the enum's name() reports it. */
  function Name(s: Status): string {
    match s
    case Unrecognized => "UNRECOGNIZED"
    case Queued => "QUEUED"
    case Saving => "SAVING"
    case Active => "ACTIVE"
    case Deactivated => "DEACTIVATED"
    case Killed => "KILLED"
    case Deleted => "DELETED"
    case PendingDelete => "PENDING_DELETE"
  }

  /** Every constant, in declaration order (the enum's values()). */
  const All: seq<Status> :=
    [Unrecognized, Queued, Saving, Active, Deactivated, Killed, Deleted, PendingDelete]

  lemma AllComplete(s: Status)
    ensures s in All
  {
  }

  /** Distinct constants have distinct names. */
  lemma NameInjective(a: Status, b: Status)
    requires Name(a) == Name(b)
    ensures a == b
  {
  }

  /** Declared names are upper-case: they contain no lower-case letter. */
  lemma NameHasNoLower(s: Status)
    ensures NoLower(Name(s))
  {
  }

  /** Finds a constant of `candidates` whose declared name is exactly `name`. */
  function Lookup(name: string, candidates: seq<Status>): (r: Option<Status>)
    ensures r.Some? ==> r.value in candidates && Name(r.value) == name
    ensures r.None? ==> forall s :: s in candidates ==> Name(s) != name
  {
    if candidates == [] then None
    else if Name(candidates[0]) == name then Some(candidates[0])
    else Lookup(name, candidates[1..])
  }

  /**
   Enum.valueOf: the constant whose declared name is exactly `name` (case-sensitive);
   None stands for the IllegalArgumentException thrown for any other string.
   */
  function ValueOf(name: string): (r: Option<Status>)
    ensures forall s :: r == Some(s) <==> Name(s) == name
  {
    var r := Lookup(name, All);
    forall s | Name(s) == name
      ensures r == Some(s)
    {
      AllComplete(s);
      if r.Some? {
        NameInjective(r.value, s);
      }
    }
    r
  }

  /**
   Status.value(String): a null input is Unrecognized; otherwise the input is upper-cased
   and looked up, and a failed lookup is also Unrecognized.
   */
  function Parse(v: Option<string>): (r: Status)
    ensures v.None? ==> r == Unrecognized
    ensures v.Some? && Name(r) != Upper(v.value) ==> r == Unrecognized
    ensures forall s :: v.Some? && Name(s) == Upper(v.value) ==> r == s
  {
    match v
    case None => Unrecognized
    case Some(text) =>
      match ValueOf(Upper(text))
      case Some(s) => s
      case None => Unrecognized
  }

  /** Status.value(): the lower-cased declared name. */
  function Value(s: Status): (r: string)
    ensures NoUpper(r)
    ensures Upper(r) == Name(s)
  {
    NameHasNoLower(s);
    UpperLowerInverse(Name(s));
    Lower(Name(s))
  }

  /** Any spelling whose upper-casing is a constant's name parses to that constant. */
  lemma ParseCaseInsensitive(text: string, s: Status)
    requires Upper(text) == Name(s)
    ensures Parse(Some(text)) == s
  {
  }

  /** Text whose upper-casing names no constant parses to Unrecognized. */
  lemma ParseUnknownIsUnrecognized(text: string)
    requires forall s :: Name(s) != Upper(text)
    ensures Parse(Some(text)) == Unrecognized
  {
  }

  /** Parsing sees the input only through its upper-casing. */
  lemma ParseDependsOnlyOnUpper(text: string)
    ensures Parse(Some(text)) == Parse(Some(Upper(text)))
  {
    UpperIdempotent(text);
  }

  /** Serialising then parsing gives back the same constant, Unrecognized included. */
  lemma RoundTrip(s: Status)
    ensures Parse(Some(Value(s))) == s
  {
  }

  /** Distinct constants serialise to distinct strings. */
  lemma ValueInjective(a: Status, b: Status)
    requires a != b
    ensures Value(a) != Value(b)
  {
    if Value(a) == Value(b) {
      NameInjective(a, b);
    }
  }

  /** "active", "Active" and "ACTIVE" all parse to Active. */
  lemma ActiveSpellings()
    ensures Parse(Some("active")) == Active
    ensures Parse(Some("Active")) == Active
    ensures Parse(Some("ACTIVE")) == Active
  {
    assert Upper("active") == "ACTIVE";
    assert Upper("Active") == "ACTIVE";
    assert Upper("ACTIVE") == "ACTIVE";
  }

  /** PENDING_DELETE serialises to "pending_delete". */
  lemma PendingDeleteValue()
    ensures Value(PendingDelete) == "pending_delete"
  {
    LowerIs("PENDING_DELETE", "pending_delete");
  }

  /** "pending_delete" parses back to PENDING_DELETE. */
  lemma PendingDeleteParse()
    ensures Parse(Some("pending_delete")) == PendingDelete
  {
    PendingDeleteValue();
    RoundTrip(PendingDelete);
  }
}
