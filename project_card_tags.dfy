/** The tag list of a project card: how the `Tags` field is read, and how
    many tags the card shows. */
module ProjectCardTags {
  import opened Common
  import opened Seqs
  import opened Js
  import Text

  /** Each piece with its surrounding white space removed. */
  function TrimEach(parts: seq<string>): (r: seq<string>)
    ensures |r| == |parts|
    ensures forall i :: 0 <= i < |parts| ==> r[i] == Text.Trim(parts[i])
  {
    seq(|parts|, i requires 0 <= i < |parts| => Text.Trim(parts[i]))
  }

  function NonEmpty(t: string): bool {
    t != ""
  }

  /** The trimmed pieces that are not empty. */
  function CleanPieces(parts: seq<string>): (tags: seq<string>)
    ensures forall i :: 0 <= i < |tags| ==> tags[i] != "" && Text.IsTrimmed(tags[i])
    ensures IsSubsequence(tags, TrimEach(parts))
    ensures forall i :: 0 <= i < |parts| && Text.Trim(parts[i]) != "" ==> Text.Trim(parts[i]) in tags
  {
    var tags := Filter(NonEmpty, TrimEach(parts));
    CleanPiecesAreClean(parts, tags);
    tags
  }

  lemma CleanPiecesAreClean(parts: seq<string>, tags: seq<string>)
    requires tags == Filter(NonEmpty, TrimEach(parts))
    ensures forall i :: 0 <= i < |tags| ==> tags[i] != "" && Text.IsTrimmed(tags[i])
    ensures IsSubsequence(tags, TrimEach(parts))
    ensures forall i :: 0 <= i < |parts| && Text.Trim(parts[i]) != "" ==> Text.Trim(parts[i]) in tags
  {
    FilterIsSubsequence(NonEmpty, TrimEach(parts));
    forall i | 0 <= i < |parts| && Text.Trim(parts[i]) != "" ensures Text.Trim(parts[i]) in tags {
      assert TrimEach(parts)[i] in TrimEach(parts);
    }
    TrimEachIsTrimmed(parts);
    forall i | 0 <= i < |tags| ensures tags[i] != "" && Text.IsTrimmed(tags[i]) {
      assert tags[i] in tags;
    }
  }

  lemma TrimEachIsTrimmed(parts: seq<string>)
    ensures forall t :: t in TrimEach(parts) ==> Text.IsTrimmed(t)
  {
    var r := TrimEach(parts);
    forall t | t in r ensures Text.IsTrimmed(t) {
      var j :| 0 <= j < |r| && r[j] == t;
      TrimmedIsTrimmed(parts[j]);
    }
  }

  lemma TrimmedIsTrimmed(p: string)
    ensures Text.IsTrimmed(Text.Trim(p))
  {
  }

  /** `s.split(',').map(t => t.trim()).filter(Boolean)`. */
  function CleanTags(s: string): (tags: seq<string>)
    ensures forall i :: 0 <= i < |tags| ==> tags[i] != "" && Text.IsTrimmed(tags[i])
    ensures IsSubsequence(tags, TrimEach(Text.Split(s, ',')))
    ensures var parts := Text.Split(s, ',');
            forall i :: 0 <= i < |parts| && Text.Trim(parts[i]) != "" ==> Text.Trim(parts[i]) in tags
  {
    CleanPieces(Text.Split(s, ','))
  }

  function AsStrings(tags: seq<string>): (r: seq<JsValue>)
    ensures |r| == |tags|
    ensures forall i :: 0 <= i < |tags| ==> r[i] == Str(tags[i])
  {
    seq(|tags|, i requires 0 <= i < |tags| => Str(tags[i]))
  }

  /** `getTags`: no tags for a falsy value, the cleaned pieces of a string,
      an array as it is, and no tags for anything else. */
  function GetTags(v: JsValue): (tags: seq<JsValue>)
    ensures !Truthy(v) ==> tags == []
    ensures v.Str? ==> forall i :: 0 <= i < |tags| ==> tags[i].Str? && tags[i].s != "" && Text.IsTrimmed(tags[i].s)
    ensures v.Str? ==> tags == AsStrings(CleanTags(v.s))
    ensures v.Arr? ==> tags == v.items
    ensures !v.Str? && !v.Arr? ==> tags == []
  {
    if !Truthy(v) then []
    else match v
      case Str(s) => AsStrings(CleanTags(s))
      case Arr(items) => items
      case _ => []
  }

  /** A tag that can be written in a comma-separated list and read back. */
  predicate CleanTag(t: string) {
    t != "" && Text.IsTrimmed(t) && ',' !in t
  }

  /** Writing clean tags as a comma-separated string and reading it back
      gives the same tags. */
  lemma TagsRoundTrip(tags: seq<string>)
    requires forall i :: 0 <= i < |tags| ==> CleanTag(tags[i])
    ensures GetTags(Str(Text.Join(tags, ','))) == AsStrings(tags)
  {
    if tags != [] {
      var joined := Text.Join(tags, ',');
      Text.SplitJoin(tags, ',');
      assert Text.Split(joined, ',') == tags;
      TrimEachOfTrimmed(tags);
      FilterAllKept(NonEmpty, tags);
      assert CleanTags(joined) == tags;
      JoinNonEmpty(tags);
    }
  }

  lemma TrimEachOfTrimmed(tags: seq<string>)
    requires forall i :: 0 <= i < |tags| ==> Text.IsTrimmed(tags[i])
    ensures TrimEach(tags) == tags
  {
    forall i | 0 <= i < |tags| ensures Text.Trim(tags[i]) == tags[i] {
      Text.TrimOfTrimmed(tags[i]);
    }
  }

  lemma {:induction false} JoinNonEmpty(tags: seq<string>)
    requires tags != [] && tags[0] != ""
    ensures Text.Join(tags, ',') != ""
  {
  }

  /** The number of tags a card shows. */
  const MaxShown: nat := 3

  /** `tagList.slice(0, 3)`. */
  function ShownTags<T>(tags: seq<T>): (r: seq<T>)
    ensures |r| == if |tags| < MaxShown then |tags| else MaxShown
    ensures r <= tags
  {
    if |tags| < MaxShown then tags else tags[..MaxShown]
  }

  /** The "+n more" label, shown only when some tags are hidden. */
  function MoreLabel(count: nat): (more: Option<string>)
    ensures more.Some? <==> count > MaxShown
  {
    if count > MaxShown then Some("+" + Text.NatToString(count - MaxShown) + " more") else None
  }

  /** The label counts exactly the tags the card leaves out. */
  lemma MoreLabelCountsHidden<T>(tags: seq<T>)
    requires |tags| > MaxShown
    ensures var text := MoreLabel(|tags|).value;
            |text| > 6 && text[0] == '+' && text[|text| - 5..] == " more" &&
            Text.ParseInt(text[1..|text| - 5]) == Some(|tags| - |ShownTags(tags)|)
  {
    var n := |tags| - MaxShown;
    var digits := Text.NatToString(n);
    var text := MoreLabel(|tags|).value;
    assert text == "+" + digits + " more";
    assert |text| == |digits| + 6;
    assert text[1..|text| - 5] == digits;
    assert text[|text| - 5..] == " more";
    Text.ParseIntToString(n);
    assert Text.IntToString(n) == digits;
  }
}
