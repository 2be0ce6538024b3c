/** `parseTimeEntry`: recognising one planner line with the pattern
      - \[([ x])\] (\d{2}:\d{2}) - (\d{2}:\d{2}) (?:####\s*)?(?:\[(.*?)\]\((.*?)\)|(.*))
    (unanchored, so the leftmost match wins) and building a `TimeEntry` from its captures. */
module EntryLine {
  import opened Wrappers
  import opened Text
  import opened Planner

  /** The fixed part of the pattern, `- [m] HH:MM - HH:MM ` with m a space or `x`, at index i. */
  predicate PrefixAt(s: string, i: nat) {
    i + 20 <= |s|
    && s[i] == '-' && s[i + 1] == ' ' && s[i + 2] == '['
    && (s[i + 3] == ' ' || s[i + 3] == 'x')
    && s[i + 4] == ']' && s[i + 5] == ' '
    && IsClock(s[i + 6..i + 11])
    && s[i + 11] == ' ' && s[i + 12] == '-' && s[i + 13] == ' '
    && IsClock(s[i + 14..i + 19])
    && s[i + 19] == ' '
  }

  /** The leftmost start position at or after k where the pattern matches. The last
      alternative `(.*)` matches at any position, so the whole pattern matches at i exactly
      when its fixed part does. */
  function FindPrefix(s: string, k: nat): (r: Option<nat>)
    ensures r.Some? ==> k <= r.value && PrefixAt(s, r.value)
    ensures r.Some? ==> forall j: nat :: k <= j < r.value ==> !PrefixAt(s, j)
    ensures r.None? ==> forall j: nat :: k <= j ==> !PrefixAt(s, j)
    decreases |s| - k
  {
    if k + 20 > |s| then None
    else if PrefixAt(s, k) then Some(k)
    else FindPrefix(s, k + 1)
  }

  /** Length of the optional group `(?:####\s*)?`, which is greedy: four `#` and all the
      white space that follows them, or nothing when t does not start with `####`. */
  function HeadingLength(t: string): (h: nat)
    ensures h <= |t|
    ensures !StartsWith(t, "####") ==> h == 0
    ensures StartsWith(t, "####") ==> 4 <= h && AllWhitespace(t[4..h]) && (h == |t| || !IsWhitespace(t[h]))
  {
    if StartsWith(t, "####") then
      var r := TrimStart(t[4..]);
      assert t[4..][..|t| - 4 - |r|] == t[4..|t| - |r|];
      |t| - |r|
    else 0
  }

  /** No line terminator in u[i..j], so `.*?` can span it. */
  predicate NoTerminator(u: string, i: nat, j: nat)
    requires i <= j <= |u|
  {
    forall k :: i <= k < j ==> !IsLineTerminator(u[k])
  }

  /** `\[(.*?)\]\((.*?)\)` matches at the start of u with the label u[1..a] and the url u[a+2..b]. */
  predicate LinkShape(u: string, a: nat, b: nat) {
    1 <= a && a + 2 <= b < |u|
    && u[0] == '[' && u[a] == ']' && u[a + 1] == '(' && u[b] == ')'
    && NoTerminator(u, 1, a) && NoTerminator(u, a + 2, b)
  }

  /** The link the regex engine picks: backtracking tries the shortest label first and, for
      it, the shortest url, so the chosen (a, b) comes first in that order among all shapes. */
  ghost predicate FirstLinkShape(u: string, a: nat, b: nat) {
    LinkShape(u, a, b) && forall a': nat, b': nat :: LinkShape(u, a', b') ==> a < a' || (a == a' && b <= b')
  }

  predicate LabelEndAt(u: string, m: nat) {
    m + 1 < |u| && u[m] == ']' && u[m + 1] == '('
  }

  /** The first `](` at or after k, unless a line terminator comes before it. */
  function FindLabelEnd(u: string, k: nat): (r: Option<nat>)
    requires k <= |u|
    ensures r.Some? ==> k <= r.value && LabelEndAt(u, r.value) && NoTerminator(u, k, r.value)
    ensures r.Some? ==> forall m :: k <= m < r.value ==> !LabelEndAt(u, m)
    ensures r.None? ==> forall m :: k <= m && LabelEndAt(u, m) ==> !NoTerminator(u, k, m)
    decreases |u| - k
  {
    if k == |u| then None
    else if LabelEndAt(u, k) then Some(k)
    else if IsLineTerminator(u[k]) then None
    else FindLabelEnd(u, k + 1)
  }

  /** The first `)` at or after k, unless a line terminator comes before it. */
  function FindUrlEnd(u: string, k: nat): (r: Option<nat>)
    requires k <= |u|
    ensures r.Some? ==> k <= r.value < |u| && u[r.value] == ')' && NoTerminator(u, k, r.value)
    ensures r.Some? ==> forall m :: k <= m < r.value ==> u[m] != ')'
    ensures r.None? ==> forall m :: k <= m < |u| && u[m] == ')' ==> !NoTerminator(u, k, m)
    decreases |u| - k
  {
    if k == |u| then None
    else if u[k] == ')' then Some(k)
    else if IsLineTerminator(u[k]) then None
    else FindUrlEnd(u, k + 1)
  }

  /** Every link shape can be cut back to the first `](`: the label can only grow by
      passing over a `](`, and the url of the shorter label then runs over it. */
  lemma FirstLabelEndDecides(u: string, a: nat)
    requires |u| > 0 && u[0] == '[' && FindLabelEnd(u, 1) == Some(a)
    ensures forall a': nat, b': nat :: LinkShape(u, a', b') ==> a <= a' && LinkShape(u, a, b')
  {
    forall a': nat, b': nat | LinkShape(u, a', b') ensures a <= a' && LinkShape(u, a, b') {
      if a' < a {
        assert LabelEndAt(u, a');
      }
      forall k | a + 2 <= k < b' ensures !IsLineTerminator(u[k]) {
        if k < a' {
          assert 1 <= k;
        } else if k >= a' + 2 {
        } else {
          assert u[k] == ']' || u[k] == '(';
        }
      }
    }
  }

  /** The link alternative at the start of u, as the pair (a, b) of its label and url ends. */
  function MatchLink(u: string): (r: Option<(nat, nat)>)
    ensures r.Some? ==> FirstLinkShape(u, r.value.0, r.value.1)
    ensures r.None? ==> forall a: nat, b: nat :: !LinkShape(u, a, b)
  {
    if |u| == 0 || u[0] != '[' then None
    else match FindLabelEnd(u, 1)
      case None => None
      case Some(a) =>
        FirstLabelEndDecides(u, a);
        match FindUrlEnd(u, a + 2)
        case None => None
        case Some(b) => Some((a, b))
  }

  /** `(.*)`: the longest prefix of u without a line terminator. */
  function RestOfLine(u: string): (r: string)
    ensures |r| <= |u| && r == u[..|r|]
    ensures NoTerminator(u, 0, |r|)
    ensures |r| == |u| || IsLineTerminator(u[|r|])
  {
    if u == [] || IsLineTerminator(u[0]) then [] else [u[0]] + RestOfLine(u[1..])
  }

  /** The result of `line.match(regex)`: the index of the match and capture groups 1 to 6;
      a group that took no part in the match is `None` (JavaScript's `undefined`). */
  datatype EntryMatch = EntryMatch(
    index: nat,
    marker: char,
    startTime: string,
    endTime: string,
    linkLabel: Option<string>,
    linkUrl: Option<string>,
    trailing: Option<string>)

  /** The text after the fixed part and the optional heading marker of a match at i. */
  function TailAt(line: string, i: nat): string
    requires i + 20 <= |line|
  {
    var t := line[i + 20..];
    t[HeadingLength(t)..]
  }

  /** Capture groups 4, 5 and 6 for the text u after the fixed part and the heading marker:
      the link label and url when the link alternative matches, the rest of the line otherwise. */
  function TailCaptures(u: string): (Option<string>, Option<string>, Option<string>) {
    match MatchLink(u)
    case Some((a, b)) => (Some(u[1..a]), Some(u[a + 2..b]), None)
    case None => (None, None, Some(RestOfLine(u)))
  }

  function MatchEntry(line: string): (r: Option<EntryMatch>)
    ensures r.None? <==> forall i: nat :: !PrefixAt(line, i)
    ensures r.Some? ==> PrefixAt(line, r.value.index)
    ensures r.Some? ==> forall j: nat :: j < r.value.index ==> !PrefixAt(line, j)
    ensures r.Some? ==> var i := r.value.index;
      && r.value.marker == line[i + 3]
      && r.value.startTime == line[i + 6..i + 11] && r.value.endTime == line[i + 14..i + 19]
  {
    match FindPrefix(line, 0)
    case None => None
    case Some(i) =>
      var caps := TailCaptures(TailAt(line, i));
      Some(EntryMatch(i, line[i + 3], line[i + 6..i + 11], line[i + 14..i + 19], caps.0, caps.1, caps.2))
  }

  /** JavaScript's `o || otherwise` for a capture that is a string or `undefined`. */
  function Or(o: Option<string>, otherwise: string): string {
    if o.Some? && o.value != "" then o.value else otherwise
  }

  /** `parseTimeEntry(line, date)`: an entry with no sub-tasks when the pattern matches
      anywhere in the line, `null` otherwise. */
  function ParseTimeEntry(line: string, date: string): (r: Option<TimeEntry>)
    ensures r.None? <==> forall i: nat :: !PrefixAt(line, i)
    ensures r.Some? ==> r.value.subTasks == [] && r.value.date == date
    ensures r.Some? ==> IsClock(r.value.startTime) && IsClock(r.value.endTime)
  {
    match MatchEntry(line)
    case None => None
    case Some(m) =>
      Some(TimeEntry(m.marker == 'x', m.startTime, m.endTime, Or(m.linkLabel, Or(m.trailing, "")), Or(m.linkUrl, ""), [], date))
  }

  /** The fields of the entry for a line whose leftmost match starts at i: the checkbox,
      the two times, and the title rule. The title is the link label whenever the link
      form matched (so `[](u)` gives the title "" and the link u), otherwise the rest of
      the line; a leading `####` and the white space after it are never part of it. */
  lemma {:induction false} ParseTimeEntryAt(line: string, date: string, i: nat)
    requires PrefixAt(line, i)
    requires forall j: nat :: j < i ==> !PrefixAt(line, j)
    ensures ParseTimeEntry(line, date).Some?
    ensures var e := ParseTimeEntry(line, date).value;
      && e.completed == (line[i + 3] == 'x')
      && e.startTime == line[i + 6..i + 11]
      && e.endTime == line[i + 14..i + 19]
      && ((forall a: nat, b: nat :: !LinkShape(TailAt(line, i), a, b)) ==> e.title == RestOfLine(TailAt(line, i)) && e.link == "")
      && (forall a: nat, b: nat :: FirstLinkShape(TailAt(line, i), a, b) ==>
            e.title == TailAt(line, i)[1..a] && e.link == TailAt(line, i)[a + 2..b])
  {
    var m := MatchEntry(line).value;
    assert m.index == i;
    TailCapturesRule(TailAt(line, i));
  }

  /** Which capture groups the tail fills: groups 4 and 5 with the first link shape, or
      group 6 with the rest of the line when there is no link shape at all. */
  lemma TailCapturesRule(u: string)
    ensures (forall a: nat, b: nat :: !LinkShape(u, a, b)) ==> TailCaptures(u) == (None, None, Some(RestOfLine(u)))
    ensures forall a: nat, b: nat :: FirstLinkShape(u, a, b) ==> TailCaptures(u) == (Some(u[1..a]), Some(u[a + 2..b]), None)
  {
    forall a: nat, b: nat | FirstLinkShape(u, a, b) ensures MatchLink(u) == Some((a, b)) {
      var r := MatchLink(u);
      assert r.Some?;
      assert FirstLinkShape(u, r.value.0, r.value.1);
    }
  }

  /** The checklist line an entry is written as: `- [x] 09:00 - 10:00 [title](link)`, or
      the plain title when there is no link. */
  function Render(e: TimeEntry): string {
    RenderPrefix(e) + RenderTail(e)
  }

  function RenderPrefix(e: TimeEntry): string {
    "- [" + [if e.completed then 'x' else ' '] + "] " + e.startTime + " - " + e.endTime + " "
  }

  function RenderTail(e: TimeEntry): string {
    if e.link != "" then "[" + e.title + "](" + e.link + ")" else e.title
  }

  predicate NoTerminatorIn(s: string) {
    forall k :: 0 <= k < |s| ==> !IsLineTerminator(s[k])
  }

  /** Entries whose rendering reads back unchanged: well-formed times, no line breaks, a
      label without `]` and a url without `)`, and a plain title that does not itself look
      like a heading marker or a link. */
  predicate Renderable(e: TimeEntry) {
    IsClock(e.startTime) && IsClock(e.endTime)
    && NoTerminatorIn(e.title) && NoTerminatorIn(e.link)
    && (e.link != "" ==> ']' !in e.title && ')' !in e.link)
    && (e.link == "" ==> !StartsWith(e.title, "####") && (e.title == [] || e.title[0] != '['))
  }

  lemma RenderedPrefix(e: TimeEntry)
    requires IsClock(e.startTime) && IsClock(e.endTime)
    ensures PrefixAt(Render(e), 0)
    ensures Render(e)[3] == (if e.completed then 'x' else ' ')
    ensures Render(e)[6..11] == e.startTime && Render(e)[14..19] == e.endTime
    ensures Render(e)[20..] == RenderTail(e)
  {
    var line := Render(e);
    assert |RenderPrefix(e)| == 20;
    assert line[..20] == RenderPrefix(e);
    assert line[6..11] == RenderPrefix(e)[6..11] == e.startTime;
    assert line[14..19] == RenderPrefix(e)[14..19] == e.endTime;
  }

  /** A rendered link with a label free of `]` and a url free of `)` is the first link shape. */
  lemma RenderedLink(text: string, url: string)
    requires NoTerminatorIn(text) && NoTerminatorIn(url)
    requires ']' !in text && ')' !in url
    ensures FirstLinkShape("[" + text + "](" + url + ")", |text| + 1, |text| + |url| + 3)
  {
    var u := "[" + text + "](" + url + ")";
    var a, b := |text| + 1, |text| + |url| + 3;
    assert u[1..a] == text && u[a + 2..b] == url;
    assert LinkShape(u, a, b);
    forall a': nat, b': nat | LinkShape(u, a', b') ensures a < a' || (a == a' && b <= b') {
    }
  }

  lemma RenderedLinkCaptures(text: string, url: string)
    requires NoTerminatorIn(text) && NoTerminatorIn(url)
    requires ']' !in text && ')' !in url
    ensures TailCaptures("[" + text + "](" + url + ")") == (Some(text), Some(url), None)
  {
    var u := "[" + text + "](" + url + ")";
    RenderedLink(text, url);
    TailCapturesRule(u);
    assert u[1..|text| + 1] == text;
    assert u[|text| + 3..|text| + |url| + 3] == url;
  }

  /** A plain title that does not start with `[` is captured whole as trailing text. */
  lemma RenderedPlain(title: string)
    requires NoTerminatorIn(title)
    requires title == [] || title[0] != '['
    ensures TailCaptures(title) == (None, None, Some(title))
  {
    assert forall a: nat, b: nat :: !LinkShape(title, a, b);
    assert RestOfLine(title) == title;
    TailCapturesRule(title);
  }

  /** The capture groups of a rendered tail are the entry's own title and link. */
  lemma RenderedTail(e: TimeEntry)
    requires Renderable(e)
    ensures !StartsWith(RenderTail(e), "####")
    ensures e.link != "" ==> TailCaptures(RenderTail(e)) == (Some(e.title), Some(e.link), None)
    ensures e.link == "" ==> TailCaptures(RenderTail(e)) == (None, None, Some(e.title))
  {
    if e.link != "" {
      assert RenderTail(e)[0] == '[';
      RenderedLinkCaptures(e.title, e.link);
    } else {
      RenderedPlain(e.title);
    }
  }

  /** The entry built from a known match. */
  lemma ParseWithMatch(line: string, date: string, m: EntryMatch)
    requires MatchEntry(line) == Some(m)
    ensures ParseTimeEntry(line, date)
      == Some(TimeEntry(m.marker == 'x', m.startTime, m.endTime, Or(m.linkLabel, Or(m.trailing, "")), Or(m.linkUrl, ""), [], date))
  {
  }

  /** Round trip: parsing a rendered entry gives back every field but the sub-tasks. */
  lemma RenderParse(e: TimeEntry)
    requires Renderable(e)
    ensures ParseTimeEntry(Render(e), e.date) == Some(e.(subTasks := []))
  {
    var line := Render(e);
    var caps := TailCaptures(RenderTail(e));
    var m := EntryMatch(0, line[3], e.startTime, e.endTime, caps.0, caps.1, caps.2);
    assert MatchEntry(line) == Some(m) by {
      RenderedPrefix(e);
      RenderedTail(e);
      assert FindPrefix(line, 0) == Some(0);
      assert TailAt(line, 0) == RenderTail(e);
    }
    ParseWithMatch(line, e.date, m);
    assert (m.marker == 'x') == e.completed by {
      RenderedPrefix(e);
    }
    assert Or(m.linkUrl, "") == e.link && Or(m.linkLabel, Or(m.trailing, "")) == e.title by {
      RenderedTail(e);
    }
  }
}
