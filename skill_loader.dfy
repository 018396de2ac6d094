/** The pure half of `skill-loader.ts`: reading the metadata out of a SKILL.md text
    (`parseMetadata`) and assembling the default system prompt (`buildSystemPrompt`).
    The regular expressions are modelled by the positions their backtracking search
    settles on. */
module SkillLoader {
  import opened Wrappers
  import opened Text
  import opened SkillTypes

  // ---------------------------------------------------------------------------------
  // The title: /^#\s+(.+)$/m

  /** Position `p` begins a line, as the multiline `^` requires. */
  predicate LineStart(s: string, p: nat)
    requires p <= |s|
  {
    p == 0 || IsLineTerminator(s[p - 1])
  }

  /** No line terminator anywhere in `s`. */
  predicate SingleLine(s: string) {
    forall i :: 0 <= i < |s| ==> !IsLineTerminator(s[i])
  }

  /** The first line terminator at or after `j` (or `|s|`): where a greedy `.+` stops. */
  function LineEnd(s: string, j: nat): (e: nat)
    requires j <= |s|
    decreases |s| - j
    ensures j <= e <= |s|
    ensures forall k :: j <= k < e ==> !IsLineTerminator(s[k])
    ensures e < |s| ==> IsLineTerminator(s[e])
  {
    if j < |s| && !IsLineTerminator(s[j]) then LineEnd(s, j + 1) else j
  }

  /** A `#` at the start of a line, directly followed by whitespace. */
  predicate HeadingMark(s: string, p: nat) {
    p + 1 < |s| && LineStart(s, p) && s[p] == '#' && IsSpace(s[p + 1])
  }

  /** Where the title regex can match: a heading mark, and after the whitespace at least
      one character that is not a line break (the whitespace may span lines, since `\s`
      includes them). */
  predicate TitleLine(s: string, p: nat) {
    HeadingMark(s, p) && exists k | p + 2 <= k < |s| :: !IsLineTerminator(s[k])
  }

  /** The trimmed capture of the title regex when its match starts at `p`. The greedy
      `\s+` runs to the first non-space `j`; when there is one, `(.+)` takes the rest of
      its line. When only whitespace follows, `\s+` gives characters back until `(.+)`
      can take one that is not a line break, and the capture trims to "". */
  function TitleAt(s: string, p: nat): (r: Option<string>)
    requires p <= |s|
    ensures r.Some? <==> TitleLine(s, p)
    ensures r.Some? ==> IsTrimmed(r.value) && SingleLine(r.value)
  {
    if !HeadingMark(s, p) then None
    else
      var j := SkipSpaces(s, p + 1);
      if j < |s| then
        var e := LineEnd(s, j);
        var r := Trim(s[j..e]);
        assert forall i :: 0 <= i < |r| ==> !IsLineTerminator(r[i]) by {
          TrimSlice(s[j..e]);
          var a := SkipSpaces(s[j..e], 0);
          forall i | 0 <= i < |r| ensures !IsLineTerminator(r[i]) {
            assert r[i] == s[j + a + i];
          }
        }
        assert !IsLineTerminator(s[j]);
        Some(r)
      else if exists k | p + 2 <= k < |s| :: !IsLineTerminator(s[k]) then Some("")
      else None
  }

  /** The leftmost position at or after `from` where the title regex matches. */
  function TitleFrom(s: string, from: nat): (r: Option<nat>)
    requires from <= |s|
    decreases |s| - from
    ensures r.Some? ==> from <= r.value < |s| && TitleLine(s, r.value)
    ensures r.Some? ==> forall q :: from <= q < r.value ==> !TitleLine(s, q)
    ensures r.None? ==> forall q :: from <= q < |s| ==> !TitleLine(s, q)
  {
    if from == |s| then None
    else if TitleAt(s, from).Some? then Some(from)
    else TitleFrom(s, from + 1)
  }

  /** `skillMd.match(/^#\s+(.+)$/m)?.[1].trim()`: present exactly when some line can
      start a match, and then taken from the first such line, trimmed and without line
      breaks. */
  function Title(s: string): (r: Option<string>)
    ensures r.Some? <==> exists p | 0 <= p < |s| :: TitleLine(s, p)
    ensures r.Some? ==> IsTrimmed(r.value) && SingleLine(r.value)
    ensures r.Some? ==> exists p | 0 <= p < |s| :: TitleAt(s, p) == r && forall q :: 0 <= q < p ==> !TitleLine(s, q)
  {
    match TitleFrom(s, 0)
    case None => None
    case Some(p) => TitleAt(s, p)
  }

  /** When text follows the whitespace after the mark, the title is read from it. */
  lemma TitleAfterMark(s: string, p: nat, j: nat)
    requires HeadingMark(s, p) && SkipSpaces(s, p + 1) == j < |s|
    ensures TitleAt(s, p).Some? && TitleAt(s, p).value == Trim(s[j..LineEnd(s, j)])
  {
  }

  /** The title regex anchored at `p`, where `s` holds `# `, then the text `t`, then a
      line break or the end. */
  lemma TitleAtHeading(s: string, p: nat, t: string)
    requires t != [] && IsTrimmed(t) && SingleLine(t)
    requires p + 2 + |t| <= |s| && LineStart(s, p)
    requires s[p] == '#' && s[p + 1] == ' ' && s[p + 2..p + 2 + |t|] == t
    requires p + 2 + |t| == |s| || IsLineTerminator(s[p + 2 + |t|])
    ensures TitleAt(s, p).Some? && TitleAt(s, p).value == t
  {
    assert s[p + 2] == t[0];
    assert SkipSpaces(s, p + 1) == p + 2;
    LineOfText(s, p + 2, t);
    assert s[p + 2..LineEnd(s, p + 2)] == t;
    AppendEmpty(t);
    TrimSurrounded([], t, []);
    assert Trim(t) == t;
    TitleAfterMark(s, p, p + 2);
  }

  /** Text without line breaks at `j`, followed by a line break or the end, is the line
      that `.+` takes from `j`. */
  lemma LineOfText(s: string, j: nat, t: string)
    requires SingleLine(t) && j + |t| <= |s| && s[j..j + |t|] == t
    requires j + |t| == |s| || IsLineTerminator(s[j + |t|])
    ensures LineEnd(s, j) == j + |t|
  {
    forall k | j <= k < j + |t| ensures !IsLineTerminator(s[k]) {
      assert s[k] == t[k - j];
    }
  }

  /** When no `#` comes before `p`, the title search settles on `p` if it can. */
  lemma FirstTitleAt(s: string, p: nat)
    requires p <= |s|
    requires forall q :: 0 <= q < p ==> s[q] != '#'
    requires TitleAt(s, p).Some?
    ensures Title(s) == TitleAt(s, p)
  {
    assert forall q :: 0 <= q < p ==> !TitleLine(s, q);
    assert TitleLine(s, p);
    var r := TitleFrom(s, 0);
    assert r.Some?;
    assert r.value == p;
  }

  /** A `# ` heading on a line of its own, preceded by text without `#`, yields its text
      as the title. */
  lemma TitleOfHeading(pre: string, t: string, rest: string)
    requires forall i :: 0 <= i < |pre| ==> pre[i] != '#'
    requires pre == [] || IsLineTerminator(pre[|pre| - 1])
    requires t != [] && IsTrimmed(t) && SingleLine(t)
    requires rest == [] || IsLineTerminator(rest[0])
    ensures Title(pre + "# " + t + rest).Some? && Title(pre + "# " + t + rest).value == t
  {
    var s := pre + "# " + t + rest;
    var p := |pre|;
    forall q | 0 <= q < p ensures s[q] != '#' {
      assert s[q] == pre[q];
    }
    assert p > 0 ==> s[p - 1] == pre[p - 1];
    assert s[p] == '#' && s[p + 1] == ' ';
    assert s[p + 2..p + 2 + |t|] == t;
    assert p + 2 + |t| < |s| ==> s[p + 2 + |t|] == rest[0];
    TitleAtHeading(s, p, t);
    FirstTitleAt(s, p);
  }

  // ---------------------------------------------------------------------------------
  // The sections: /##\s*<Name>\s*\n([\s\S]*?)(?=##|$)/i

  const DescriptionName: string := "Description"
  const FunctionalityName: string := "Functionality"
  const UsageName: string := "Usage"

  /** A section name starts with an ASCII letter, so in no case does it start with
      whitespace. */
  predicate Word(name: string) {
    name != [] && ('A' <= name[0] <= 'Z' || 'a' <= name[0] <= 'z')
  }

  /** `name` occurs at `a` when ASCII case is ignored, as under the `i` flag. */
  predicate NameAt(s: string, a: int, name: string) {
    0 <= a && a + |name| <= |s| && forall i :: 0 <= i < |name| ==> LowerChar(s[a + i]) == LowerChar(name[i])
  }

  /** `name`, in any ASCII case, at `a`, after nothing but whitespace since `p + 2`. */
  ghost predicate NameAfter(s: string, name: string, p: int, a: int) {
    0 <= p && p + 2 <= a && NameAt(s, a, name) && AllSpace(s[p + 2..a])
  }

  /** A line feed at `m`, after nothing but whitespace since `b`. */
  ghost predicate BreakAfter(s: string, b: int, m: int) {
    0 <= b <= m < |s| && AllSpace(s[b..m]) && s[m] == '\n'
  }

  /** Whitespace since `b` that includes a line feed. */
  ghost predicate LineBreakAfter(s: string, b: int) {
    exists m :: BreakAfter(s, b, m)
  }

  /** A header for `name` at `p`: `##`, optional whitespace, the name in any case, then
      whitespace that includes a line feed. */
  ghost predicate HeaderAt(s: string, name: string, p: int) {
    OccursAt(s, "##", p)
    && exists a :: NameAfter(s, name, p, a) && LineBreakAfter(s, a + |name|)
  }

  /** The text of a section value: trimmed, and free of `##`. */
  ghost predicate SectionText(v: string) {
    IsTrimmed(v) && !Contains(v, "##")
  }

  /** The last line feed in `s[b..c]`: where `\s*\n` ends once the greedy `\s*` has given
      back what the `\n` needs. */
  function LastLineFeed(s: string, b: nat, c: nat): (r: Option<nat>)
    requires b <= c <= |s|
    decreases c - b
    ensures r.Some? ==> b <= r.value < c && s[r.value] == '\n'
    ensures r.None? ==> forall k :: b <= k < c ==> s[k] != '\n'
  {
    if c == b then None
    else if s[c - 1] == '\n' then Some(c - 1)
    else LastLineFeed(s, b, c - 1)
  }

  /** Where the lazy `([\s\S]*?)` stops: the first `##` at or after `i`, or the end. */
  function BodyEnd(s: string, i: nat): (e: nat)
    requires i <= |s|
    ensures i <= e <= |s|
    ensures forall k :: i <= k < e ==> !OccursAt(s, "##", k)
  {
    match FindFrom(s, "##", i)
    case Some(e) => e
    case None => |s|
  }

  /** A substring that lies before the first `##` holds no `##`, and neither does its
      trimmed form. */
  lemma TrimmedBodyText(s: string, i: nat, e: nat)
    requires i <= e <= |s|
    requires forall k :: i <= k < e ==> !OccursAt(s, "##", k)
    ensures SectionText(Trim(s[i..e]))
  {
    var g := s[i..e];
    var r := Trim(g);
    var a := SkipSpaces(g, 0);
    TrimSlice(g);
    forall j | 0 <= j <= |r| - 2 ensures !OccursAt(r, "##", j) {
      if OccursAt(r, "##", j) {
        OccursInSlice(g, a, a + |r|, "##", j);
        OccursInSlice(s, i, e, "##", a + j);
      }
    }
  }

  /** Where the header line of a match starting at `p` ends: the line feed that
      `\s*\n` settles on after the `##`, the whitespace and the name. */
  function HeaderEnd(s: string, name: string, p: nat): (r: Option<nat>)
    requires p <= |s| && Word(name)
    ensures r.Some? ==> p + 2 + |name| <= r.value < |s| && s[r.value] == '\n'
  {
    if !OccursAt(s, "##", p) then None
    else
      var a := SkipSpaces(s, p + 2);
      var b := a + |name|;
      if !NameAt(s, a, name) then None
      else LastLineFeed(s, b, SkipSpaces(s, b))
  }

  /** The scan for the header line succeeds exactly when a header is there: the greedy
      `\s*` before the name gives nothing back, since the name starts with a letter, and
      the one after it gives back just enough for the line feed. */
  lemma HeaderEndMeansHeader(s: string, name: string, p: nat)
    requires p <= |s| && Word(name)
    ensures HeaderEnd(s, name, p).Some? <==> HeaderAt(s, name, p)
  {
    if OccursAt(s, "##", p) {
      var a := SkipSpaces(s, p + 2);
      var b := a + |name|;
      if !NameAt(s, a, name) {
        NoNameAfter(s, name, p);
      } else {
        match LastLineFeed(s, b, SkipSpaces(s, b))
        case None => NoBreakAfter(s, name, p);
        case Some(m) => HeaderFound(s, name, p, m);
      }
    }
  }

  /** The captured text of a section whose header line ends at the line feed `m`,
      trimmed. */
  function BodyText(s: string, m: nat): (v: string)
    requires m < |s|
    ensures SectionText(v)
  {
    TrimmedBodyText(s, m + 1, BodyEnd(s, m + 1));
    Trim(s[m + 1..BodyEnd(s, m + 1)])
  }

  /** The trimmed section value when the regex match starts at `p`: the text after the
      header line up to the next `##` or the end. */
  function SectionAt(s: string, name: string, p: nat): (r: Option<string>)
    requires p <= |s| && Word(name)
    ensures r.Some? <==> HeaderEnd(s, name, p).Some?
    ensures r.Some? ==> SectionText(r.value)
  {
    var h := HeaderEnd(s, name, p);
    if h.Some? then Some(BodyText(s, h.value)) else None
  }

  /** The positions the regex settles on make a header. */
  lemma HeaderFound(s: string, name: string, p: nat, m: nat)
    requires OccursAt(s, "##", p)
    requires var a := SkipSpaces(s, p + 2);
             && NameAt(s, a, name)
             && a + |name| <= m < SkipSpaces(s, a + |name|) && s[m] == '\n'
    ensures HeaderAt(s, name, p)
  {
    var a := SkipSpaces(s, p + 2);
    var b := a + |name|;
    assert NameAfter(s, name, p, a) by { SpaceRun(s, p + 2, a); }
    assert LineBreakAfter(s, b) by {
      SpaceRun(s, b, m);
      assert BreakAfter(s, b, m);
    }
  }

  /** The whitespace before the name is skipped greedily, and a letter is never
      whitespace: so the name can only sit where `\s*` stops. */
  lemma NameWhereSpacesStop(s: string, name: string, p: nat, a: int)
    requires p + 2 <= |s| && Word(name) && NameAfter(s, name, p, a)
    ensures a == SkipSpaces(s, p + 2)
  {
    var t := s[p + 2..a];
    assert forall k :: p + 2 <= k < a ==> s[k] == t[k - p - 2];
    assert LowerChar(s[a + 0]) == LowerChar(name[0]);
    assert !IsSpace(s[a]);
  }

  lemma NoNameAfter(s: string, name: string, p: nat)
    requires OccursAt(s, "##", p) && Word(name)
    requires !NameAt(s, SkipSpaces(s, p + 2), name)
    ensures !HeaderAt(s, name, p)
  {
    if HeaderAt(s, name, p) {
      var a :| NameAfter(s, name, p, a) && LineBreakAfter(s, a + |name|);
      NameWhereSpacesStop(s, name, p, a);
    }
  }

  /** `\s*\n` finds a line feed that only whitespace separates from `b`. */
  lemma LineFeedFound(s: string, b: nat, m: nat)
    requires BreakAfter(s, b, m)
    ensures LastLineFeed(s, b, SkipSpaces(s, b)).Some?
  {
    SpacesReach(s, b, m);
  }

  lemma NoLineBreak(s: string, b: nat)
    requires b <= |s| && LastLineFeed(s, b, SkipSpaces(s, b)).None?
    ensures !LineBreakAfter(s, b)
  {
    if LineBreakAfter(s, b) {
      var m :| BreakAfter(s, b, m);
      LineFeedFound(s, b, m);
    }
  }

  lemma NoBreakAfter(s: string, name: string, p: nat)
    requires OccursAt(s, "##", p) && Word(name)
    requires var a := SkipSpaces(s, p + 2);
             && a + |name| <= |s|
             && LastLineFeed(s, a + |name|, SkipSpaces(s, a + |name|)).None?
    ensures !HeaderAt(s, name, p)
  {
    forall a | NameAfter(s, name, p, a) ensures !LineBreakAfter(s, a + |name|) {
      NameWhereSpacesStop(s, name, p, a);
      NoLineBreak(s, a + |name|);
    }
  }

  /** The leftmost position at or after `from` where the section regex matches. */
  function SectionFrom(s: string, name: string, from: nat): (r: Option<nat>)
    requires from <= |s| && Word(name)
    decreases |s| - from
    ensures r.Some? ==> from <= r.value < |s| && HeaderEnd(s, name, r.value).Some?
    ensures r.Some? ==> forall q :: from <= q < r.value ==> HeaderEnd(s, name, q).None?
    ensures r.None? ==> forall q :: from <= q < |s| ==> HeaderEnd(s, name, q).None?
  {
    if from == |s| then None
    else if HeaderEnd(s, name, from).Some? then Some(from)
    else SectionFrom(s, name, from + 1)
  }

  /** `skillMd.match(/##\s*<name>\s*\n([\s\S]*?)(?=##|$)/i)?.[1].trim()`, taken from the
      leftmost header. */
  function Section(s: string, name: string): (r: Option<string>)
    requires Word(name)
    ensures r.Some? ==> SectionText(r.value)
  {
    match SectionFrom(s, name, 0)
    case None => None
    case Some(p) => SectionAt(s, name, p)
  }

  /** A section is present exactly when a header for it exists somewhere in the text. */
  lemma SectionPresence(s: string, name: string)
    requires Word(name)
    ensures Section(s, name).Some? <==> exists p | 0 <= p < |s| :: HeaderAt(s, name, p)
  {
    forall p | 0 <= p < |s| ensures HeaderEnd(s, name, p).Some? <==> HeaderAt(s, name, p) {
      HeaderEndMeansHeader(s, name, p);
    }
  }

  /** `s` holds `## <name>` at `p`, then a line feed and a character that is not
      whitespace. */
  ghost predicate HeaderShape(s: string, name: string, p: nat) {
    var b := p + 3 + |name|;
    && b + 1 < |s|
    && s[p..p + 3] == "## " && s[p + 3..b] == name && s[b] == '\n' && !IsSpace(s[b + 1])
  }

  /** From `i` on, `s` holds `body`, then `w`, then either `##` or the end. */
  ghost predicate BodyShape(s: string, i: nat, body: string, w: string) {
    var e := i + |body| + |w|;
    && e <= |s| && s[i..i + |body|] == body && s[i + |body|..e] == w
    && (e == |s| || (e + 2 <= |s| && s[e..e + 2] == "##"))
  }

  /** A header line ends at its line feed. */
  lemma HeaderLine(s: string, name: string, p: nat)
    requires Word(name) && HeaderShape(s, name, p)
    ensures HeaderEnd(s, name, p) == Some(p + 3 + |name|)
  {
    var b := p + 3 + |name|;
    assert s[p] == s[p..p + 3][0] == '#' && s[p + 1] == s[p..p + 3][1] == '#';
    assert OccursAt(s, "##", p) by { assert s[p..p + 2] == [s[p], s[p + 1]]; }
    assert s[p + 2] == s[p..p + 3][2] == ' ';
    assert s[p + 3] == s[p + 3..b][0] == name[0];
    assert SkipSpaces(s, p + 2) == p + 3;
    var t := s[p + 3..b];
    assert forall i :: 0 <= i < |name| ==> s[p + 3 + i] == t[i];
    assert NameAt(s, p + 3, name);
    assert SkipSpaces(s, b) == b + 1;
    HeaderEndAt(s, name, p, b);
  }

  /** The body from `i` reads as `body`. */
  lemma BodyBetween(s: string, i: nat, body: string, w: string)
    requires IsTrimmed(body) && AllSpace(w) && forall k :: 0 <= k < |body| ==> body[k] != '#'
    requires BodyShape(s, i, body, w)
    ensures BodyEnd(s, i) == i + |body| + |w| && Trim(s[i..i + |body| + |w|]) == body
  {
    var e := i + |body| + |w|;
    NoHashInBody(s, i, body, w);
    BodyEndAt(s, i, e);
    SliceSplit(s, i, i + |body|, e);
    TrimSpaceAfter(s[i..e], body, w);
  }

  lemma NoHashInBody(s: string, i: nat, body: string, w: string)
    requires AllSpace(w) && forall k :: 0 <= k < |body| ==> body[k] != '#'
    requires BodyShape(s, i, body, w)
    ensures forall k :: i <= k < i + |body| + |w| ==> s[k] != '#'
  {
    var e := i + |body| + |w|;
    forall k | i <= k < e ensures s[k] != '#' {
      if k < i + |body| {
        assert s[k] == s[i..i + |body|][k - i];
      } else {
        assert s[k] == s[i + |body|..e][k - i - |body|];
      }
    }
  }

  /** The header line ends at the line feed `b` that directly follows the name. */
  lemma HeaderEndAt(s: string, name: string, p: nat, b: nat)
    requires Word(name) && OccursAt(s, "##", p)
    requires var a := SkipSpaces(s, p + 2); a + |name| == b < |s| && NameAt(s, a, name)
    requires s[b] == '\n' && SkipSpaces(s, b) == b + 1
    ensures HeaderEnd(s, name, p) == Some(b)
  {
    assert LastLineFeed(s, b, b + 1) == Some(b);
  }

  /** The section value is read after the line feed that ends the header. */
  lemma SectionAfterHeader(s: string, name: string, p: nat, b: nat, v: string)
    requires p <= |s| && Word(name) && HeaderEnd(s, name, p) == Some(b)
    requires BodyText(s, b) == v
    ensures SectionAt(s, name, p).Some? && SectionAt(s, name, p).value == v
  {
  }

  /** The section text after the line feed `m` is `body` when `body`, whitespace, and
      then `##` or the end follow it. */
  lemma BodyTextOf(s: string, m: nat, body: string, w: string)
    requires IsTrimmed(body) && AllSpace(w) && forall k :: 0 <= k < |body| ==> body[k] != '#'
    requires m < |s| && BodyShape(s, m + 1, body, w)
    ensures BodyText(s, m) == body
  {
    BodyBetween(s, m + 1, body, w);
  }

  /** The body ends at the first `##` when no `#` comes before it. */
  lemma BodyEndAt(s: string, i: nat, e: nat)
    requires i <= e <= |s|
    requires forall k :: i <= k < e ==> s[k] != '#'
    requires e == |s| || (e + 2 <= |s| && s[e..e + 2] == "##")
    ensures BodyEnd(s, i) == e
  {
    assert e < |s| ==> OccursAt(s, "##", e);
    forall k | i <= k < e && k + 2 <= |s| ensures !OccursAt(s, "##", k) {
      assert s[k..k + 2][0] == s[k];
    }
  }

  /** When no `##` starts before `p`, the section search settles on `p` if it can. */
  lemma FirstSectionAt(s: string, name: string, p: nat)
    requires p <= |s| && Word(name)
    requires forall q :: 0 <= q < p ==> !OccursAt(s, "##", q)
    requires HeaderEnd(s, name, p).Some?
    ensures SectionFrom(s, name, 0) == Some(p)
  {
    assert forall q :: 0 <= q < p ==> HeaderEnd(s, name, q).None?;
  }

  /** A document with a `## <name>` header line after `pre`. */
  ghost function HeaderDoc(pre: string, name: string, body: string, w: string, rest: string): string {
    pre + "## " + name + "\n" + body + w + rest
  }

  /** A header line `## <name>` followed by the section text, then whitespace and either
      the next `##` or the end, yields that text, provided nothing before the header can
      start a `##`. */
  lemma SectionOfHeader(pre: string, name: string, body: string, w: string, rest: string)
    requires Word(name)
    requires !Contains(pre, "##") && (pre == [] || pre[|pre| - 1] != '#')
    requires body != [] && IsTrimmed(body) && forall i :: 0 <= i < |body| ==> body[i] != '#'
    requires AllSpace(w)
    requires rest == [] || (|rest| >= 2 && rest[..2] == "##")
    ensures Section(pre + "## " + name + "\n" + body + w + rest, name).Some?
    ensures Section(pre + "## " + name + "\n" + body + w + rest, name).value == body
  {
    NothingBeforeHeader(pre, name, body, w, rest);
    HeaderShapeOf(pre, name, body, w, rest);
    BodyShapeOf(pre, name, body, w, rest);
    SectionOfShapes(HeaderDoc(pre, name, body, w, rest), name, |pre|, body, w);
  }

  /** The same, on any text with those shapes. */
  lemma SectionOfShapes(s: string, name: string, p: nat, body: string, w: string)
    requires Word(name)
    requires IsTrimmed(body) && AllSpace(w) && forall k :: 0 <= k < |body| ==> body[k] != '#'
    requires forall q :: 0 <= q < p ==> !OccursAt(s, "##", q)
    requires HeaderShape(s, name, p) && BodyShape(s, p + 3 + |name| + 1, body, w)
    ensures Section(s, name).Some? && Section(s, name).value == body
  {
    var b := p + 3 + |name|;
    HeaderLine(s, name, p);
    BodyTextOf(s, b, body, w);
    SectionAfterHeader(s, name, p, b, body);
    FirstSectionAt(s, name, p);
  }

  lemma NothingBeforeHeader(pre: string, name: string, body: string, w: string, rest: string)
    requires !Contains(pre, "##") && (pre == [] || pre[|pre| - 1] != '#')
    ensures forall q :: 0 <= q < |pre| ==> !OccursAt(HeaderDoc(pre, name, body, w, rest), "##", q)
  {
    var s := HeaderDoc(pre, name, body, w, rest);
    var p := |pre|;
    forall q | 0 <= q < p ensures !OccursAt(s, "##", q) {
      if q + 1 < p {
        assert s[q..q + 2] == pre[q..q + 2];
        assert !OccursAt(pre, "##", q);
      } else {
        assert s[q] == pre[q];
      }
    }
  }

  lemma HeaderShapeOf(pre: string, name: string, body: string, w: string, rest: string)
    requires body != [] && !IsSpace(body[0])
    ensures HeaderShape(HeaderDoc(pre, name, body, w, rest), name, |pre|)
  {
    var s := HeaderDoc(pre, name, body, w, rest);
    var p := |pre|;
    var b := p + 3 + |name|;
    assert s[p..p + 3] == "## ";
    assert s[p + 3..b] == name;
    assert s[b] == '\n';
    assert s[b + 1] == body[0];
  }

  lemma BodyShapeOf(pre: string, name: string, body: string, w: string, rest: string)
    requires rest == [] || (|rest| >= 2 && rest[..2] == "##")
    ensures |pre| + 3 + |name| < |HeaderDoc(pre, name, body, w, rest)|
    ensures BodyShape(HeaderDoc(pre, name, body, w, rest), |pre| + 3 + |name| + 1, body, w)
  {
    var s := HeaderDoc(pre, name, body, w, rest);
    var i := |pre| + 3 + |name| + 1;
    var e := i + |body| + |w|;
    assert s[i..i + |body|] == body;
    assert s[i + |body|..e] == w;
    assert e < |s| ==> s[e..e + 2] == rest[..2];
  }

  /** `parseMetadata`: four independent regex searches filling a fresh record. Every
      field it fills is trimmed; the title lies on one line and no section value holds
      `##`. */
  function ParseMetadata(skillMd: string): (m: Metadata)
    ensures m.title.Some? ==> IsTrimmed(m.title.value) && SingleLine(m.title.value)
    ensures m.description.Some? ==> SectionText(m.description.value)
    ensures m.functionality.Some? ==> SectionText(m.functionality.value)
    ensures m.usage.Some? ==> SectionText(m.usage.value)
  {
    Metadata(
      Title(skillMd),
      Section(skillMd, DescriptionName),
      Section(skillMd, FunctionalityName),
      Section(skillMd, UsageName))
  }

  /** Each metadata field is present exactly when its heading is in the text. */
  lemma MetadataPresence(skillMd: string)
    ensures var m := ParseMetadata(skillMd);
            && (m.title.Some? <==> exists p | 0 <= p < |skillMd| :: TitleLine(skillMd, p))
            && (m.description.Some? <==> exists p | 0 <= p < |skillMd| :: HeaderAt(skillMd, DescriptionName, p))
            && (m.functionality.Some? <==> exists p | 0 <= p < |skillMd| :: HeaderAt(skillMd, FunctionalityName, p))
            && (m.usage.Some? <==> exists p | 0 <= p < |skillMd| :: HeaderAt(skillMd, UsageName, p))
  {
    SectionPresence(skillMd, DescriptionName);
    SectionPresence(skillMd, FunctionalityName);
    SectionPresence(skillMd, UsageName);
  }

  /** The fields are not independent of each other's headers: a section runs up to the
      next `##` of any kind. With a `## Usage` header after it, the description `x` stops
      there ... */
  lemma DescriptionStopsAtNextHeader(x: string, y: string)
    requires x != [] && IsTrimmed(x) && forall i :: 0 <= i < |x| ==> x[i] != '#'
    ensures ParseMetadata("## " + DescriptionName + "\n" + x + "\n" + "## " + UsageName + "\n" + y).description
            == Some(x)
  {
    var usage := "## " + UsageName + "\n" + y;
    assert Word(DescriptionName);
    assert AllSpace("\n");
    assert usage[..2] == "##";
    SectionOfHeader([], DescriptionName, x, "\n", usage);
    AppendEmpty("## ");
    var a := "## " + DescriptionName + "\n" + x + "\n";
    var u := "## " + UsageName;
    AppendAssoc(a, "## ", UsageName);
    AppendAssoc(a, u, "\n");
    AppendAssoc(a, u + "\n", y);
  }

  /** ... while without that header the usage text `y` is merged into the description. */
  lemma DescriptionRunsOnWithoutHeader(x: string, y: string)
    requires x != [] && IsTrimmed(x) && forall i :: 0 <= i < |x| ==> x[i] != '#'
    requires y != [] && IsTrimmed(y) && forall i :: 0 <= i < |y| ==> y[i] != '#'
    ensures ParseMetadata("## " + DescriptionName + "\n" + x + "\n" + y).description
            == Some(x + "\n" + y)
  {
    var xy := x + "\n" + y;
    assert xy[0] == x[0] && xy[|xy| - 1] == y[|y| - 1];
    forall i | 0 <= i < |xy| ensures xy[i] != '#' {
      if i < |x| { assert xy[i] == x[i]; }
      else if i > |x| { assert xy[i] == y[i - |x| - 1]; }
    }
    assert Word(DescriptionName);
    assert AllSpace([]);
    SectionOfHeader([], DescriptionName, xy, [], []);
    AppendEmpty("## ");
    var head := "## " + DescriptionName + "\n";
    AppendEmpty(head + xy);
    AppendAssoc(head, x, "\n");
    AppendAssoc(head, x + "\n", y);
  }

  // ---------------------------------------------------------------------------------
  // The default system prompt

  /** `parts.join('\n')`: the parts with a line feed between each two. The joined text
      starts with the first part and ends with the last. */
  function JoinLines(parts: seq<string>): (r: string)
    ensures parts != [] ==> parts[0] <= r && EndsWith(r, parts[|parts| - 1])
  {
    if |parts| == 0 then ""
    else if |parts| == 1 then parts[0]
    else
      var rest := JoinLines(parts[1..]);
      ConcatParts(parts[0], "\n" + rest);
      AppendAssoc(parts[0], "\n", rest);
      ConcatParts(parts[0] + "\n", rest);
      parts[0] + "\n" + rest
  }

  /** Joining two non-empty lists of parts is joining each and putting one line feed
      between them. */
  lemma {:induction false} JoinLinesAppend(a: seq<string>, b: seq<string>)
    requires a != [] && b != []
    ensures JoinLines(a + b) == JoinLines(a) + "\n" + JoinLines(b)
    decreases |a|
  {
    if |a| == 1 {
      assert (a + b)[1..] == b;
    } else {
      assert (a + b)[1..] == a[1..] + b;
      JoinLinesAppend(a[1..], b);
      AppendAssoc(a[0] + "\n", JoinLines(a[1..]) + "\n", JoinLines(b));
      AppendAssoc(a[0] + "\n", JoinLines(a[1..]), "\n");
    }
  }

  /** A JavaScript string is truthy when it is present and not empty. */
  predicate Truthy(o: Option<string>) {
    o.Some? && o.value != ""
  }

  /** `metadata?.title || name`. */
  function DisplayName(skill: SkillContent): string {
    if Truthy(skill.metadata.title) then skill.metadata.title.value else skill.name
  }

  const IntroHead: string := "You are a professional "
  const IntroTail: string := " assistant."

  function IntroLine(skill: SkillContent): string {
    IntroHead + DisplayName(skill) + IntroTail
  }

  const DescriptionHeader: string := "## Description"
  const FunctionalityHeader: string := "## Functionality"
  const DetailedHeader: string := "## Detailed Description"
  const RulesHeader: string := "## Interaction Rules"

  /** The closing block: its header, the four numbered rules and an empty line. */
  const RulesLines: seq<string> := [RulesHeader, Rule1, Rule2, Rule3, Rule4, ""]

  const Rule1: string := "1. Carefully analyze user input and understand their intent"
  const Rule2: string := "2. Execute tasks based on skill functionality"
  const Rule3: string := "3. If information is insufficient, ask the user for more details"
  const Rule4: string := "4. Present final results in structured format when appropriate"

  /** The optional blocks: a header, the text and an empty line when the text is truthy,
      nothing otherwise. */
  function OptionalBlock(header: string, text: Option<string>): seq<string> {
    if Truthy(text) then [header, text.value, ""] else []
  }

  /** The parts between the intro and the rules, pushed in the order of the source. */
  function PromptBody(skill: SkillContent): seq<string> {
    OptionalBlock(DescriptionHeader, skill.metadata.description)
    + [FunctionalityHeader, skill.skillMd, ""]
    + OptionalBlock(DetailedHeader, skill.readmeMd)
  }

  /** The `parts` list. */
  function PromptParts(skill: SkillContent): seq<string> {
    [IntroLine(skill), ""] + PromptBody(skill) + RulesLines
  }

  /** `buildSystemPrompt`: the prompt opens with the intro line and an empty line, and
      closes with the rules block after a line feed. */
  function BuildSystemPrompt(skill: SkillContent): (r: string)
    ensures IntroLine(skill) + "\n\n" <= r
    ensures EndsWith(r, "\n" + RulesText)
  {
    RulesJoined();
    JoinFrame(IntroLine(skill), PromptBody(skill), RulesLines, RulesText);
    JoinLines(PromptParts(skill))
  }

  /** The parts list: the intro line and an empty line; a `## Description` block exactly
      when the description is truthy; the `## Functionality` block holding SKILL.md
      verbatim; a `## Detailed Description` block exactly when README.md is truthy; and
      the rules block last. */
  lemma PromptPartsLayout(skill: SkillContent)
    ensures var parts := PromptParts(skill);
            var d := if Truthy(skill.metadata.description) then 3 else 0;
            var k := d + 5;
            && |parts| == k + (if Truthy(skill.readmeMd) then 3 else 0) + 6
            && parts[0] == IntroLine(skill) && parts[1] == ""
            && (parts[2] == DescriptionHeader <==> Truthy(skill.metadata.description))
            && (Truthy(skill.metadata.description) ==> parts[3] == skill.metadata.description.value)
            && parts[d + 2] == FunctionalityHeader && parts[d + 3] == skill.skillMd
            && (parts[k] == DetailedHeader <==> Truthy(skill.readmeMd))
            && (Truthy(skill.readmeMd) ==> parts[k + 1] == skill.readmeMd.value)
            && parts[|parts| - 6..] == RulesLines
  {
    assert FunctionalityHeader[3] != DescriptionHeader[3];
    assert RulesHeader[3] != DetailedHeader[3];
  }

  /** The intro names the skill by its title, or by its name when the title is absent or
      empty. */
  lemma IntroNamesSkill(skill: SkillContent)
    ensures var line := IntroLine(skill);
            && |line| == |IntroHead| + |DisplayName(skill)| + |IntroTail|
            && line[..|IntroHead|] == IntroHead
            && line[|IntroHead|..|line| - |IntroTail|] == DisplayName(skill)
            && line[|line| - |IntroTail|..] == IntroTail
            && (Truthy(skill.metadata.title) ==> DisplayName(skill) == skill.metadata.title.value)
            && (!Truthy(skill.metadata.title) ==> DisplayName(skill) == skill.name)
  {
    var line := IntroLine(skill);
    assert line[..|IntroHead|] == IntroHead;
    assert line[|IntroHead|..|line| - |IntroTail|] == DisplayName(skill);
    assert line[|line| - |IntroTail|..] == IntroTail;
  }

  /** The text of the rules block. */
  const RulesText: string :=
    RulesHeader + "\n" + (Rule1 + "\n" + (Rule2 + "\n" + (Rule3 + "\n" + (Rule4 + "\n"))))

  /** Joining an intro line, an empty line, a body and a tail whose join is `tailText`. */
  lemma JoinFrame(intro: string, body: seq<string>, tail: seq<string>, tailText: string)
    requires body != [] && tail != [] && JoinLines(tail) == tailText
    ensures intro + "\n\n" <= JoinLines([intro, ""] + body + tail)
    ensures EndsWith(JoinLines([intro, ""] + body + tail), "\n" + tailText)
  {
    var a := [intro, ""];
    var head := JoinLines(a + body);
    var all := JoinLines(a + body + tail);
    assert all == head + ("\n" + tailText) by {
      JoinLinesAppend(a + body, tail);
      AppendAssoc(head, "\n", tailText);
    }
    assert EndsWith(all, "\n" + tailText) by {
      ConcatParts(head, "\n" + tailText);
    }
    assert head == intro + "\n\n" + JoinLines(body) by {
      JoinLinesAppend(a, body);
      assert JoinLines(a) == intro + "\n" + "";
      AppendEmpty(intro + "\n");
      AppendAssoc(intro, "\n", "\n");
      assert "\n" + "\n" == "\n\n";
    }
    assert intro + "\n\n" <= all by {
      PrefixOfPrefix(intro + "\n\n", JoinLines(body), "\n" + tailText);
    }
  }

  /** The leading part of a concatenation stays leading when more is appended. */
  lemma PrefixOfPrefix(x: string, y: string, z: string)
    ensures (x + y + z)[..|x|] == x
  {
  }

  lemma RulesJoined()
    ensures JoinLines(RulesLines) == RulesText
  {
    LinesOfBlock(RulesHeader, Rule1, Rule2, Rule3, Rule4);
  }

  lemma LinesOfBlock(h: string, a: string, b: string, c: string, d: string)
    ensures JoinLines([h, a, b, c, d, ""]) == h + "\n" + (a + "\n" + (b + "\n" + (c + "\n" + (d + "\n"))))
  {
    var r := [h, a, b, c, d, ""];
    AppendEmpty(d + "\n");
    assert JoinLines(r[4..]) == d + "\n" + "";
    assert JoinLines(r[3..]) == c + "\n" + JoinLines(r[4..]);
    assert JoinLines(r[2..]) == b + "\n" + JoinLines(r[3..]);
    assert JoinLines(r[1..]) == a + "\n" + JoinLines(r[2..]);
    assert JoinLines(r) == h + "\n" + JoinLines(r[1..]);
  }
}
