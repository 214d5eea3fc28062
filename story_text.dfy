/**
 * The story title convention. The add page stores a story's title inside
 * its description as `**title**` followed by a newline and the text; the
 * home and offline pages read it back, falling back to a default title or
 * the story's `name`.
 */
module StoryText {
  import opened Wrappers
  import opened Text

  /** Ends the title segment. */
  const Marker := "**\n"
  const DefaultTitle := "Cerita Tanpa Judul"

  /** The combined description the add page submits. */
  function ComposeDescription(title: string, description: string): (r: string)
    ensures HasTitleMarker(r)
  {
    Marked(Trim(title), Trim(description));
    "**" + Trim(title) + Marker + Trim(description)
  }

  /** `**`, a title, the marker and a text, whatever the title holds, carry the title marker. */
  lemma Marked(t: string, d: string)
    ensures HasTitleMarker("**" + t + Marker + d)
  {
    var r := "**" + t + Marker + d;
    assert r[|t| + 2..|t| + 5] == Marker;
    assert OccursAt(r, Marker, |t| + 2);
    ContainsIff(r, Marker);
    assert "**" <= r;
  }

  /** Whether a description follows the convention, as both parsers test it. */
  predicate HasTitleMarker(d: string) {
    d != "" && StartsWith(d, "**") && Contains(d, Marker)
  }

  /** The title segment: the first `**\n`-separated part, its first `**` removed, trimmed. */
  function TitleOf(parts: seq<string>): string
    requires |parts| >= 1
  {
    Trim(ReplaceFirst(parts[0], "**", ""))
  }

  /** `_extractTitle`: the title of a marked description, or `null`. */
  function ExtractTitle(d: string): (r: Option<string>)
    ensures r.Some? <==> HasTitleMarker(d)
    ensures r.Some? ==> r.value == TitleOf(Split(d, Marker))
  {
    if HasTitleMarker(d) then
      var parts := Split(d, Marker);
      if |parts| >= 2 then Some(TitleOf(parts)) else None
    else None
  }

  datatype DisplayInfo = DisplayInfo(title: string, description: string)

  /**
   * `_extractStoryDisplayInfo` (the same on the home and offline pages):
   * the parsed title and the rest joined with "" and trimmed; without the
   * marker the default title and the description as it is; a default title
   * gives way to a non-empty `name`.
   */
  function ExtractDisplayInfo(name: string, d: string): (r: DisplayInfo)
    ensures !HasTitleMarker(d) ==> r == DisplayInfo(if name != "" then name else DefaultTitle, d)
    ensures HasTitleMarker(d) ==> r.description == Trim(Concat(Split(d, Marker)[1..]))
    ensures HasTitleMarker(d) ==>
      var t := TitleOf(Split(d, Marker));
      r.title == if t == DefaultTitle && name != "" then name else t
  {
    var parsed: Option<(string, string)> :=
      if HasTitleMarker(d) then
        var parts := Split(d, Marker);
        if |parts| >= 2 then Some((TitleOf(parts), Trim(Concat(parts[1..])))) else None
      else None;
    var title := if parsed.Some? then parsed.value.0 else DefaultTitle;
    var description := if parsed.Some? then parsed.value.1 else d;
    DisplayInfo(if title == DefaultTitle && name != "" then name else title, description)
  }

  /** Both parsers agree: a title `_extractTitle` finds is the title the display shows, unless it is the default and a name replaces it. */
  lemma ExtractTitleAgrees(name: string, d: string)
    ensures ExtractTitle(d).Some? ==>
      ExtractDisplayInfo(name, d).title ==
        if ExtractTitle(d).value == DefaultTitle && name != "" then name else ExtractTitle(d).value
  {
  }

  /** In a composed description with a single-line title, the first marker closes the title. */
  lemma FirstMarker(t: string, d: string)
    requires '\n' !in t
    ensures IndexOf("**" + t + Marker + d, Marker) == Some(|t| + 2)
  {
    var s := "**" + t + Marker + d;
    var k := |t| + 2;
    assert s[k..k + 3] == Marker;
    forall j | 0 <= j < k ensures !OccursAt(s, Marker, j) {
      assert s[j + 2] != '\n' by {
        if j < |t| {
          assert s[j + 2] == t[j];
          assert t[j] in t;
        } else {
          assert s[j + 2] == '*';
        }
      }
      assert s[j..j + 3][2] == s[j + 2];
    }
    IndexOfAt(s, Marker, k);
  }

  /** Removing the first `**` of `**t` leaves `t`. */
  lemma DropOpening(t: string)
    ensures ReplaceFirst("**" + t, "**", "") == t
  {
    assert OccursAt("**" + t, "**", 0);
    IndexOfAt("**" + t, "**", 0);
    assert ("**" + t)[2..] == t;
  }

  /** A composed description splits into the opened title and the text. */
  lemma ComposedParts(t: string, d: string)
    requires '\n' !in t && !Contains(d, Marker)
    ensures Split("**" + t + Marker + d, Marker) == ["**" + t, d]
  {
    var s := "**" + t + Marker + d;
    var k := |t| + 2;
    FirstMarker(t, d);
    SplitAt(s, Marker, k);
    assert s[k + 3..] == d;
    assert s[..k] == "**" + t;
  }

  /** A composed description carries the marker. */
  lemma ComposedMarked(t: string, d: string)
    requires '\n' !in t
    ensures HasTitleMarker("**" + t + Marker + d)
  {
    FirstMarker(t, d);
    assert "**" <= "**" + t + Marker + d;
  }

  /** The title segment of a composed description is its trimmed title. */
  lemma ComposedTitle(t: string, d: string)
    requires IsTrimmed(t) && '\n' !in t && !Contains(d, Marker)
    ensures TitleOf(Split("**" + t + Marker + d, Marker)) == t
  {
    ComposedParts(t, d);
    DropOpening(t);
    TrimOfTrimmed(t);
  }

  lemma ConcatSingle(parts: seq<string>, d: string)
    requires parts == [d]
    ensures Concat(parts) == d
  {
    assert parts[1..] == [];
  }

  /** The rest of a composed description is its trimmed text. */
  lemma ComposedText(t: string, d: string)
    requires IsTrimmed(d) && '\n' !in t && !Contains(d, Marker)
    ensures Trim(Concat(Split("**" + t + Marker + d, Marker)[1..])) == d
  {
    ComposedParts(t, d);
    ConcatSingle(["**" + t, d][1..], d);
    TrimOfTrimmed(d);
  }

  /** The title a writer gives comes back; so does the text, unless it holds the marker itself. */
  lemma ComposeRoundTrip(name: string, title: string, description: string)
    requires '\n' !in Trim(title)
    requires !Contains(Trim(description), Marker)
    ensures var info := ExtractDisplayInfo(name, ComposeDescription(title, description));
      info.description == Trim(description) &&
      info.title == if Trim(title) == DefaultTitle && name != "" then name else Trim(title)
    ensures ExtractTitle(ComposeDescription(title, description)) == Some(Trim(title))
  {
    var t, d := Trim(title), Trim(description);
    assert ComposeDescription(title, description) == "**" + t + Marker + d;
    ComposedMarked(t, d);
    ComposedTitle(t, d);
    ComposedText(t, d);
  }

  /** The offline page's preview: the first 100 characters, then `...` iff there was more. */
  function Preview(d: string): (r: string)
    ensures |d| <= 100 ==> r == d
    ensures |d| > 100 ==> r == d[..100] + "..."
  {
    (if |d| <= 100 then d else d[..100]) + (if |d| > 100 then "..." else "")
  }

  /** The preview is at most 103 characters, starts like the description and is marked iff cut. */
  lemma PreviewShape(d: string)
    ensures |Preview(d)| <= 103
    ensures |d| <= 100 ==> Preview(d) == d
    ensures |d| > 100 <==> (|Preview(d)| == 103 && Preview(d)[100..] == "...")
  {
    if |d| <= 100 && |Preview(d)| == 103 {
      assert false;
    }
  }
}
