// Template resolution for workflow step configs: {{ path.to.value }} references are
// found by the pattern \{\{\s*(.+?)\s*\}\} and replaced by values from a nested dict.
module Templates {
  import opened Wrappers
  import opened PyText

  // ---------- Values ----------

  /** A Python value. Dicts keep insertion order; `Scalar` is any other leaf with its str(). */
  datatype Value =
    | Null
    | Text(text: string)
    | Scalar(shown: string)
    | List(items: seq<Value>)
    | Dict(entries: seq<Entry>)

  datatype Entry = Entry(key: string, value: Value)

  /** str() of lists and dicts. */
  type Show = Value -> string

  function Find(entries: seq<Entry>, key: string): Option<Value> {
    if entries == [] then None
    else if entries[0].key == key then Some(entries[0].value)
    else Find(entries[1..], key)
  }

  /** dict.get(key, "") */
  function Get(entries: seq<Entry>, key: string): Value {
    match Find(entries, key) case Some(v) => v case None => Text("")
  }

  function Render(show: Show, v: Value): string {
    match v
    case Null => ""
    case Text(s) => s
    case Scalar(s) => s
    case _ => show(v)
  }

  /** What a dotted path denotes: the empty string as soon as it leaves the nested dicts. */
  function Lookup(value: Value, path: seq<string>): Value
    decreases path
  {
    if path == [] then value
    else if value.Dict? then Lookup(Get(value.entries, path[0]), path[1..])
    else Text("")
  }

  method WalkPath(context: Value, parts: seq<string>) returns (value: Value)
    ensures value == Lookup(context, parts)
  {
    value := context;
    for i := 0 to |parts|
      invariant Lookup(value, parts[i..]) == Lookup(context, parts)
    {
      if value.Dict? {
        value := Get(value.entries, parts[i]);
      } else {
        value := Text("");
        break;
      }
    }
  }

  // ---------- The scanner ----------

  /** A match at the start of a text: the captured group and what follows the match. */
  datatype Match = Match(group: string, rest: string)

  /** The lazy group ends at the first g that is followed by optional whitespace and "}}". */
  function CloseFrom(t: string, g: nat): (m: Option<Match>)
    requires g <= |t|
    ensures m.Some? ==> |m.value.rest| < |t|
    decreases |t| - g
  {
    var after := t[g + LeadingSpaces(t[g..])..];
    if "}}" <= after then Some(Match(t[..g], after[2..]))
    else if g < |t| && t[g] != '\n' then CloseFrom(t, g + 1)
    else None
  }

  function MatchGroup(t: string): (m: Option<Match>)
    ensures m.Some? ==> |m.value.rest| < |t|
  {
    if t == "" || t[0] == '\n' then None else CloseFrom(t, 1)
  }

  /** The greedy leading \s* takes `w` characters, giving one back at a time on failure. */
  function TryPadding(body: string, w: nat): (m: Option<Match>)
    requires w <= |body|
    ensures m.Some? ==> |m.value.rest| < |body|
  {
    var m := MatchGroup(body[w..]);
    if m.Some? || w == 0 then m else TryPadding(body, w - 1)
  }

  function MatchPrefix(t: string): (m: Option<Match>)
    ensures m.Some? ==> |m.value.rest| < |t|
  {
    if "{{" <= t then TryPadding(t[2..], LeadingSpaces(t[2..])) else None
  }

  function Replacement(show: Show, context: Value, group: string): string {
    Render(show, Lookup(context, SplitDots(Strip(group))))
  }

  /** re.sub: leftmost matches, left to right, never looking back into what was inserted. */
  function Resolve(show: Show, context: Value, t: string): string
    decreases |t|
  {
    if t == "" then ""
    else
      match MatchPrefix(t)
      case Some(m) => Replacement(show, context, m.group) + Resolve(show, context, m.rest)
      case None => [t[0]] + Resolve(show, context, t[1..])
  }

  lemma Associate(a: string, b: string, c: string)
    ensures (a + b) + c == a + (b + c)
  {
  }

  method ResolveText(show: Show, context: Value, template: string) returns (result: string)
    ensures result == Resolve(show, context, template)
  {
    result := "";
    var rest := template;
    while rest != ""
      invariant result + Resolve(show, context, rest) == Resolve(show, context, template)
      decreases |rest|
    {
      var m := MatchPrefix(rest);
      if m.Some? {
        var value := WalkPath(context, SplitDots(Strip(m.value.group)));
        Associate(result, Render(show, value), Resolve(show, context, m.value.rest));
        result := result + Render(show, value);
        rest := m.value.rest;
      } else {
        Associate(result, [rest[0]], Resolve(show, context, rest[1..]));
        result := result + [rest[0]];
        rest := rest[1..];
      }
    }
  }

  // ---------- The pattern, declaratively ----------

  /** `t` starts with "{{", w spaces, g >= 1 characters other than newline, u spaces, "}}". */
  ghost predicate RegexParse(t: string, w: nat, g: nat, u: nat) {
    && 4 + w + g + u <= |t|
    && "{{" <= t
    && AllSpaces(t[2..2 + w])
    && g >= 1 && '\n' !in t[2 + w..2 + w + g]
    && AllSpaces(t[2 + w + g..2 + w + g + u])
    && "}}" <= t[2 + w + g + u..]
  }

  /** A parse of the part after the padding. */
  ghost predicate GroupParse(s: string, g: nat, u: nat) {
    && g + u + 2 <= |s|
    && g >= 1 && '\n' !in s[..g]
    && AllSpaces(s[g..g + u])
    && "}}" <= s[g + u..]
  }

  lemma RegexParseSplits(t: string, w: nat, g: nat, u: nat)
    requires "{{" <= t && 2 + w <= |t|
    ensures RegexParse(t, w, g, u) <==> AllSpaces(t[2..2 + w]) && GroupParse(t[2..][w..], g, u)
  {
    var s := t[2..][w..];
    assert s == t[2 + w..];
    if g + u + 2 <= |s| {
      assert s[..g] == t[2 + w..2 + w + g];
      assert s[g..g + u] == t[2 + w + g..2 + w + g + u];
      assert s[g + u..] == t[2 + w + g + u..];
    }
  }

  /** Braces are not whitespace, so the trailing \s* must take the whole run. */
  lemma TrailingPaddingIsForced(s: string, g: nat, u: nat)
    requires GroupParse(s, g, u)
    ensures u == LeadingSpaces(s[g..])
  {
    assert s[g..][..u] == s[g..g + u];
    assert s[g..][u] == s[g + u..][0] == '}';
    LeadingSpacesIs(s[g..], u);
  }

  lemma InPrefix(s: string, n: nat, i: nat)
    requires i < n <= |s|
    ensures s[i] in s[..n]
  {
    assert s[..n][i] == s[i];
  }

  /** k is the shortest group length from g on that parses. */
  ghost predicate Shortest(s: string, g: nat, k: nat, u: nat) {
    && g <= k && GroupParse(s, k, u)
    && forall g': nat, u': nat :: g <= g' && GroupParse(s, g', u') ==> k <= g'
  }

  lemma NotClosedHere(s: string, g: nat)
    requires g <= |s| && !("}}" <= s[g + LeadingSpaces(s[g..])..])
    ensures forall u: nat :: !GroupParse(s, g, u)
  {
    forall u: nat
      ensures !GroupParse(s, g, u)
    {
      if GroupParse(s, g, u) {
        TrailingPaddingIsForced(s, g, u);
      }
    }
  }

  lemma NoGroupPastNewline(s: string, g: nat)
    requires g == |s| || (g < |s| && s[g] == '\n')
    ensures forall g': nat, u: nat :: g < g' ==> !GroupParse(s, g', u)
  {
    forall g': nat, u: nat | g < g'
      ensures !GroupParse(s, g', u)
    {
      if g' <= |s| {
        InPrefix(s, g', g);
      }
    }
  }

  lemma ClosedHere(s: string, g: nat)
    requires 1 <= g <= |s| && '\n' !in s[..g] && "}}" <= s[g + LeadingSpaces(s[g..])..]
    ensures var u := LeadingSpaces(s[g..]);
            && GroupParse(s, g, u)
            && CloseFrom(s, g) == Some(Match(s[..g], s[g + u + 2..]))
  {
    var u := LeadingSpaces(s[g..]);
    LeadingSpacesIsTheRun(s[g..]);
    assert s[g..g + u] == s[g..][..u];
    assert s[g + u..][2..] == s[g + u + 2..];
  }

  lemma {:induction false} CloseFromFindsTheShortestGroup(s: string, g: nat) returns (k: nat, u: nat)
    requires 1 <= g <= |s| && '\n' !in s[..g]
    ensures CloseFrom(s, g).None? ==> forall g': nat, u': nat :: g <= g' ==> !GroupParse(s, g', u')
    ensures CloseFrom(s, g).Some? ==>
              Shortest(s, g, k, u) && CloseFrom(s, g) == Some(Match(s[..k], s[k + u + 2..]))
    decreases |s| - g
  {
    hide GroupParse, LeadingSpaces;
    k, u := g, LeadingSpaces(s[g..]);
    if "}}" <= s[g + u..] {
      ClosedHere(s, g);
    } else {
      NotClosedHere(s, g);
      if g < |s| && s[g] != '\n' {
        assert s[..g + 1] == s[..g] + [s[g]];
        k, u := CloseFromFindsTheShortestGroup(s, g + 1);
      } else {
        NoGroupPastNewline(s, g);
      }
    }
  }

  lemma MatchGroupFindsTheShortestGroup(s: string) returns (k: nat, u: nat)
    ensures MatchGroup(s).None? ==> forall g: nat, u': nat :: !GroupParse(s, g, u')
    ensures MatchGroup(s).Some? ==>
              Shortest(s, 1, k, u) && MatchGroup(s) == Some(Match(s[..k], s[k + u + 2..]))
  {
    if s == "" || s[0] == '\n' {
      k, u := 0, 0;
      NoGroupPastNewline(s, 0);
    } else {
      k, u := CloseFromFindsTheShortestGroup(s, 1);
    }
  }

  ghost predicate Preferred(t: string, w: nat, g: nat, u: nat) {
    RegexParse(t, w, g, u) &&
    forall w': nat, g': nat, u': nat :: RegexParse(t, w', g', u') ==> w' < w || (w' == w && g <= g')
  }

  ghost predicate IsPreferredMatch(t: string, m: Match) {
    exists w: nat, g: nat, u: nat ::
      Preferred(t, w, g, u) && m == Match(t[2 + w..2 + w + g], t[4 + w + g + u..])
  }

  /** With `w` the longest padding that leaves a parse, the shortest group is preferred. */
  lemma GroupAfterLongestPadding(t: string, w: nat)
    requires "{{" <= t && w <= |t[2..]| && AllSpaces(t[2..2 + w])
    requires forall w': nat, g: nat, u: nat :: w < w' ==> !RegexParse(t, w', g, u)
    ensures MatchGroup(t[2..][w..]).Some? ==> IsPreferredMatch(t, MatchGroup(t[2..][w..]).value)
    ensures MatchGroup(t[2..][w..]).None? ==> forall g: nat, u: nat :: !RegexParse(t, w, g, u)
  {
    var s := t[2..][w..];
    var g, u := MatchGroupFindsTheShortestGroup(s);
    forall g: nat, u: nat
      ensures RegexParse(t, w, g, u) <==> GroupParse(s, g, u)
    {
      RegexParseSplits(t, w, g, u);
    }
    hide CloseFrom, LeadingSpaces, AllSpaces, RegexParse;
    if MatchGroup(s).Some? {
      GroupIsLong(s);
      assert Preferred(t, w, g, u);
      GroupSlices(t, w, g, u);
    }
  }

  lemma GroupIsLong(s: string)
    ensures forall g: nat, u: nat :: GroupParse(s, g, u) ==> g >= 1 && g + u + 2 <= |s|
  {
  }

  lemma GroupSlices(t: string, w: nat, g: nat, u: nat)
    requires 4 + w + g + u <= |t|
    ensures t[2..][w..][..g] == t[2 + w..2 + w + g] && t[2..][w..][g + u + 2..] == t[4 + w + g + u..]
  {
    assert t[2..][w..] == t[2 + w..];
  }

  lemma {:induction false} TryPaddingPrefersMorePadding(t: string, w: nat)
    requires "{{" <= t && w <= |t[2..]| && AllSpaces(t[2..2 + w])
    requires forall w': nat, g: nat, u: nat :: w < w' ==> !RegexParse(t, w', g, u)
    ensures TryPadding(t[2..], w).None? ==> forall w': nat, g: nat, u: nat :: !RegexParse(t, w', g, u)
    ensures TryPadding(t[2..], w).Some? ==> IsPreferredMatch(t, TryPadding(t[2..], w).value)
  {
    GroupAfterLongestPadding(t, w);
    if MatchGroup(t[2..][w..]).None? {
      if w > 0 {
        assert t[2..2 + (w - 1)] == t[2..2 + w][..w - 1];
        TryPaddingPrefersMorePadding(t, w - 1);
      }
    }
  }

  lemma PaddingIsWhitespace(t: string, w: nat, g: nat, u: nat)
    requires RegexParse(t, w, g, u)
    ensures "{{" <= t && w <= LeadingSpaces(t[2..])
  {
    assert t[2..][..w] == t[2..2 + w];
    LeadingSpacesIsLongest(t[2..], w);
  }

  /** The scanner is the pattern: it fails exactly when no parse exists, and otherwise takes
      the parse the pattern prefers (longest leading padding, then shortest group). */
  lemma MatchPrefixIsThePattern(t: string)
    ensures MatchPrefix(t).None? <==> forall w: nat, g: nat, u: nat :: !RegexParse(t, w, g, u)
    ensures MatchPrefix(t).Some? ==> IsPreferredMatch(t, MatchPrefix(t).value)
  {
    hide RegexParse, LeadingSpaces, TryPadding;
    forall w: nat, g: nat, u: nat | RegexParse(t, w, g, u)
      ensures "{{" <= t && w <= LeadingSpaces(t[2..])
    {
      PaddingIsWhitespace(t, w, g, u);
    }
    if "{{" <= t {
      var n := LeadingSpaces(t[2..]);
      LeadingSpacesIsTheRun(t[2..]);
      assert t[2..2 + n] == t[2..][..n];
      TryPaddingPrefersMorePadding(t, n);
    }
  }

  // ---------- Printing templates and reading them back ----------

  /** A piece of a template: literal text, or a padded reference to a dotted path. */
  datatype Segment = Lit(text: string) | Ref(left: string, names: seq<string>, right: string)

  predicate IsName(s: string) {
    s != "" && NoSpaces(s) && '.' !in s && '{' !in s && '}' !in s
  }

  predicate IsSegment(seg: Segment) {
    match seg
    case Lit(text) => '{' !in text
    case Ref(left, names, right) =>
      AllSpaces(left) && AllSpaces(right) && |names| > 0 && forall i :: 0 <= i < |names| ==> IsName(names[i])
  }

  function PrintSegment(seg: Segment): string
    requires IsSegment(seg)
  {
    match seg
    case Lit(text) => text
    case Ref(left, names, right) => "{{" + (left + (JoinDots(names) + (right + "}}")))
  }

  function Print(segs: seq<Segment>): string
    requires forall i :: 0 <= i < |segs| ==> IsSegment(segs[i])
  {
    if segs == [] then "" else PrintSegment(segs[0]) + Print(segs[1..])
  }

  /** What the template means: literals as they stand, references by looked-up value. */
  function Denote(show: Show, context: Value, segs: seq<Segment>): string {
    if segs == [] then ""
    else
      (match segs[0]
       case Lit(text) => text
       case Ref(_, names, _) => Render(show, Lookup(context, names)))
      + Denote(show, context, segs[1..])
  }

  predicate PathChars(s: string) {
    NoSpaces(s) && '{' !in s && '}' !in s
  }

  lemma {:induction false} JoinedPathChars(names: seq<string>)
    requires |names| > 0 && forall i :: 0 <= i < |names| ==> IsName(names[i])
    ensures JoinDots(names) != "" && PathChars(JoinDots(names))
  {
    if |names| > 1 {
      JoinedPathChars(names[1..]);
      assert PathChars(".") && PathChars(names[0]);
    }
  }

  /** Inside the path no closing braces are in sight, so the lazy group grows to its end. */
  lemma {:induction false} CloseAfterPath(path: string, pad: string, rest: string, g: nat)
    requires PathChars(path) && AllSpaces(pad) && 1 <= g <= |path|
    ensures CloseFrom(path + (pad + ("}}" + rest)), g) == Some(Match(path, rest))
    decreases |path| - g
  {
    var tail := "}}" + rest;
    var t := path + (pad + tail);
    if g < |path| {
      assert t[g..][0] == path[g];
      assert LeadingSpaces(t[g..]) == 0;
      assert t[g + 0..][0] != '}';
      CloseAfterPath(path, pad, rest, g + 1);
    } else {
      assert t[g..] == pad + tail;
      LeadingSpacesOf(pad, tail);
      assert t[g + |pad|..] == tail;
      assert t[..g] == path && tail[2..] == rest;
    }
  }

  /** A printed reference is matched exactly, whatever follows it. */
  lemma MatchOfReference(left: string, names: seq<string>, right: string, rest: string)
    requires IsSegment(Ref(left, names, right))
    ensures MatchPrefix(PrintSegment(Ref(left, names, right)) + rest) == Some(Match(JoinDots(names), rest))
  {
    JoinedPathChars(names);
    MatchOfPaddedPath(left, JoinDots(names), right, rest);
    var path := JoinDots(names);
    Associate(right, "}}", rest);
    Associate(path, right + "}}", rest);
    Associate(left, path + (right + "}}"), rest);
    Associate("{{", left + (path + (right + "}}")), rest);
  }

  lemma MatchOfPaddedPath(left: string, path: string, right: string, rest: string)
    requires AllSpaces(left) && AllSpaces(right) && path != "" && PathChars(path)
    ensures MatchPrefix("{{" + (left + (path + (right + ("}}" + rest))))) == Some(Match(path, rest))
  {
    var tail := path + (right + ("}}" + rest));
    var t := "{{" + (left + tail);
    assert t[2..] == left + tail;
    assert tail[0] == path[0];
    LeadingSpacesOf(left, tail);
    assert (left + tail)[|left|..] == tail;
    CloseAfterPath(path, right, rest, 1);
    assert MatchGroup(tail) == Some(Match(path, rest));
    assert "{{" <= t;
  }

  lemma ResolveSkips(show: Show, context: Value, t: string)
    requires t != "" && !("{{" <= t)
    ensures Resolve(show, context, t) == [t[0]] + Resolve(show, context, t[1..])
  {
  }

  lemma {:induction false} ResolveOfLiteral(show: Show, context: Value, text: string, rest: string)
    requires '{' !in text
    ensures Resolve(show, context, text + rest) == text + Resolve(show, context, rest)
  {
    hide Resolve, TryPadding, Replacement;
    if text == "" {
      assert text + rest == rest;
    } else {
      var t := text + rest;
      assert t[0] == text[0] && t[1..] == text[1..] + rest;
      ResolveOfLiteral(show, context, text[1..], rest);
      ResolveSkips(show, context, t);
      Associate([text[0]], text[1..], Resolve(show, context, rest));
      assert [text[0]] + text[1..] == text;
    }
  }

  /** Round trip: printing literals and references and resolving the print gives exactly the
      literals and the looked-up values, in order, even when those values contain "{{". */
  lemma {:induction false} ResolveOfPrint(show: Show, context: Value, segs: seq<Segment>)
    requires forall i :: 0 <= i < |segs| ==> IsSegment(segs[i])
    ensures Resolve(show, context, Print(segs)) == Denote(show, context, segs)
  {
    if segs != [] {
      var rest := Print(segs[1..]);
      ResolveOfPrint(show, context, segs[1..]);
      match segs[0] {
        case Lit(text) =>
          ResolveOfLiteral(show, context, text, rest);
        case Ref(left, names, right) =>
          MatchOfReference(left, names, right, rest);
          JoinedPathChars(names);
          StripOfTight(JoinDots(names));
          SplitOfJoin(names);
          assert PrintSegment(segs[0]) + rest != "";
      }
    }
  }

  /** What one reference becomes: the text of the value its keys lead to, nothing for None and
      for keys that lead nowhere. */
  lemma ReferenceBecomes(show: Show, context: Value, left: string, names: seq<string>, right: string)
    requires IsSegment(Ref(left, names, right))
    ensures Resolve(show, context, PrintSegment(Ref(left, names, right))) ==
            match At(context, names)
            case None => ""
            case Some(Null) => ""
            case Some(Text(text)) => text
            case Some(Scalar(shown)) => shown
            case Some(other) => show(other)
  {
    hide Resolve, Lookup, At;
    var segs := [Ref(left, names, right)];
    ResolveOfPrint(show, context, segs);
    LookupFollowsTheKeys(context, names);
    assert segs[1..] == [];
    assert Print(segs) == PrintSegment(segs[0]) + "" == PrintSegment(segs[0]);
    assert Denote(show, context, segs[1..]) == "";
  }

  lemma ResolveMatch(show: Show, context: Value, t: string)
    requires t != "" && MatchPrefix(t).Some?
    ensures Resolve(show, context, t) ==
            Replacement(show, context, MatchPrefix(t).value.group)
            + Resolve(show, context, MatchPrefix(t).value.rest)
  {
  }

  lemma CloseAfterOne(c: char)
    requires IsSpace(c) && c != '\n'
    ensures MatchGroup([c] + "}}") == Some(Match([c], ""))
    ensures MatchGroup("}}") == None
  {
    var t := [c] + "}}";
    assert t[1..] == "}}" && t[..1] == [c];
    assert "}}"[2..] == "" && "}}"[1..] == "}" && "}"[1..] == "";
  }

  lemma MatchOfBlank(pad: string)
    requires AllSpaces(pad) && '\n' !in pad && pad != ""
    ensures MatchPrefix("{{" + (pad + "}}")) == Some(Match([pad[|pad| - 1]], ""))
  {
    var t, body, n := "{{" + (pad + "}}"), pad + "}}", |pad|;
    assert t[2..] == body && body[n..] == "}}";
    assert body[n - 1..] == [pad[n - 1]] + "}}" && pad[n - 1] in pad;
    LeadingSpacesOf(pad, "}}");
    CloseAfterOne(pad[n - 1]);
    hide MatchGroup, LeadingSpaces;
    assert TryPadding(body, n) == TryPadding(body, n - 1) == MatchGroup(body[n - 1..]);
  }

  lemma StripOfBlank(s: string)
    requires AllSpaces(s)
    ensures Strip(s) == ""
  {
    assert s[..|s|] == s;
    LeadingSpacesIs(s, |s|);
  }

  /** A reference to nothing but blanks reads the empty key. */
  lemma BlankReferenceReadsTheEmptyKey(show: Show, context: Value, pad: string)
    requires AllSpaces(pad) && '\n' !in pad && pad != ""
    ensures Resolve(show, context, "{{" + (pad + "}}")) == Render(show, Lookup(context, [""]))
  {
    hide Resolve, MatchPrefix, Lookup, PyText.Strip;
    var t := "{{" + (pad + "}}");
    MatchOfBlank(pad);
    ResolveMatch(show, context, t);
    StripOfBlank([pad[|pad| - 1]]);
    assert Resolve(show, context, "") == "" by {
      ResolveOfNothing(show, context);
    }
  }

  lemma ResolveOfNothing(show: Show, context: Value)
    ensures Resolve(show, context, "") == ""
  {
  }

  // ---------- resolve_dict ----------

  function ResolveItem(show: Show, context: Value, item: Value): Value {
    if item.Text? then Text(Resolve(show, context, item.text)) else item
  }

  function ResolveItems(show: Show, context: Value, items: seq<Value>): seq<Value> {
    if items == [] then [] else [ResolveItem(show, context, items[0])] + ResolveItems(show, context, items[1..])
  }

  /** Strings are resolved; dicts recursively; lists one level deep; other leaves kept. */
  function ResolveValue(show: Show, context: Value, value: Value): Value
    decreases value
  {
    match value
    case Text(_) => ResolveItem(show, context, value)
    case Dict(entries) => Dict(ResolveEntries(show, context, entries))
    case List(items) => List(ResolveItems(show, context, items))
    case _ => value
  }

  function ResolveEntries(show: Show, context: Value, config: seq<Entry>): (result: seq<Entry>)
    ensures |result| == |config|
    decreases config
  {
    if config == [] then []
    else
      [Entry(config[0].key, ResolveValue(show, context, config[0].value))]
      + ResolveEntries(show, context, config[1..])
  }

  predicate HasKey(entries: seq<Entry>, key: string) {
    exists i :: 0 <= i < |entries| && entries[i].key == key
  }

  /** result[key] = value */
  function Put(entries: seq<Entry>, key: string, value: Value): seq<Entry> {
    if entries == [] then [Entry(key, value)]
    else if entries[0].key == key then [Entry(key, value)] + entries[1..]
    else [entries[0]] + Put(entries[1..], key, value)
  }

  predicate UniqueKeys(entries: seq<Entry>) {
    forall i, j :: 0 <= i < j < |entries| ==> entries[i].key != entries[j].key
  }

  /** Python dicts at every depth reached by resolve_dict. */
  predicate IsDict(entries: seq<Entry>)
    decreases entries
  {
    UniqueKeys(entries) &&
    forall i | 0 <= i < |entries| :: entries[i].value.Dict? ==> IsDict(entries[i].value.entries)
  }

  lemma {:induction false} PutNewKeyAppends(entries: seq<Entry>, key: string, value: Value)
    requires !HasKey(entries, key)
    ensures Put(entries, key, value) == entries + [Entry(key, value)]
  {
    if entries != [] {
      assert entries[0].key != key;
      assert forall i :: 0 <= i < |entries[1..]| ==> entries[1..][i] == entries[i + 1];
      PutNewKeyAppends(entries[1..], key, value);
    }
  }

  lemma {:induction false} ResolveEntriesAt(show: Show, context: Value, config: seq<Entry>, i: nat)
    requires i < |config|
    ensures ResolveEntries(show, context, config)[i] ==
            Entry(config[i].key, ResolveValue(show, context, config[i].value))
  {
    if i > 0 {
      ResolveEntriesAt(show, context, config[1..], i - 1);
    }
  }

  lemma {:induction false} ResolveEntriesAppend(show: Show, context: Value, a: seq<Entry>, e: Entry)
    ensures ResolveEntries(show, context, a + [e]) ==
            ResolveEntries(show, context, a) + [Entry(e.key, ResolveValue(show, context, e.value))]
  {
    if a != [] {
      assert (a + [e])[1..] == a[1..] + [e];
      ResolveEntriesAppend(show, context, a[1..], e);
    } else {
      assert a + [e] == [e] && [e][1..] == [];
      assert ResolveEntries(show, context, [e][1..]) == [];
    }
  }

  lemma {:induction false} ResolveItemsAppend(show: Show, context: Value, a: seq<Value>, v: Value)
    ensures ResolveItems(show, context, a + [v]) == ResolveItems(show, context, a) + [ResolveItem(show, context, v)]
  {
    if a != [] {
      assert (a + [v])[1..] == a[1..] + [v];
      ResolveItemsAppend(show, context, a[1..], v);
    } else {
      assert a + [v] == [v] && [v][1..] == [];
      assert ResolveItems(show, context, [v][1..]) == [];
    }
  }

  method ResolveList(show: Show, context: Value, items: seq<Value>) returns (result: seq<Value>)
    ensures result == ResolveItems(show, context, items)
  {
    result := [];
    for i := 0 to |items|
      invariant result == ResolveItems(show, context, items[..i])
    {
      ResolveItemsAppend(show, context, items[..i], items[i]);
      assert items[..i + 1] == items[..i] + [items[i]];
      if items[i].Text? {
        var text := ResolveText(show, context, items[i].text);
        result := result + [Text(text)];
      } else {
        result := result + [items[i]];
      }
    }
    assert items[..|items|] == items;
  }

  /** Storing the next resolved entry extends the resolved dict. */
  lemma NextEntry(show: Show, context: Value, config: seq<Entry>, i: nat)
    requires i < |config| && UniqueKeys(config)
    ensures Put(ResolveEntries(show, context, config[..i]), config[i].key,
                ResolveValue(show, context, config[i].value)) == ResolveEntries(show, context, config[..i + 1])
  {
    hide ResolveValue;
    var before := ResolveEntries(show, context, config[..i]);
    forall j | 0 <= j < i
      ensures before[j].key == config[j].key
    {
      ResolveEntriesAt(show, context, config[..i], j);
    }
    PutNewKeyAppends(before, config[i].key, ResolveValue(show, context, config[i].value));
    ResolveEntriesAppend(show, context, config[..i], config[i]);
    assert config[..i + 1] == config[..i] + [config[i]];
  }

  lemma NothingResolved(show: Show, context: Value)
    ensures ResolveEntries(show, context, []) == []
  {
  }

  method ResolveDict(show: Show, context: Value, config: seq<Entry>) returns (result: seq<Entry>)
    requires IsDict(config)
    ensures result == ResolveEntries(show, context, config)
    decreases config
  {
    hide Put, ResolveEntries, ResolveItems, Resolve;
    result := [];
    NothingResolved(show, context);
    for i := 0 to |config|
      invariant result == ResolveEntries(show, context, config[..i])
    {
      var key, value := config[i].key, config[i].value;
      NextEntry(show, context, config, i);
      if value.Text? {
        var text := ResolveText(show, context, value.text);
        result := Put(result, key, Text(text));
      } else if value.Dict? {
        var nested := ResolveDict(show, context, value.entries);
        result := Put(result, key, Dict(nested));
      } else if value.List? {
        var items := ResolveList(show, context, value.items);
        result := Put(result, key, List(items));
      } else {
        result := Put(result, key, value);
      }
    }
    assert config[..|config|] == config;
  }

  /** The value reached by following keys through nested dicts. */
  function At(value: Value, path: seq<string>): Option<Value>
    decreases path
  {
    if path == [] then Some(value)
    else if value.Dict? && Find(value.entries, path[0]).Some? then At(Find(value.entries, path[0]).value, path[1..])
    else None
  }

  /** A dotted path reads the value its keys lead to, and the empty string if they lead nowhere. */
  lemma {:induction false} LookupFollowsTheKeys(value: Value, path: seq<string>)
    ensures Lookup(value, path) == match At(value, path) case Some(v) => v case None => Text("")
    decreases path
  {
    if path != [] && value.Dict? {
      LookupFollowsTheKeys(Get(value.entries, path[0]), path[1..]);
    }
  }

  lemma {:induction false} FindOfResolved(show: Show, context: Value, entries: seq<Entry>, key: string)
    ensures Find(ResolveEntries(show, context, entries), key) ==
            match Find(entries, key)
            case Some(v) => Some(ResolveValue(show, context, v))
            case None => None
  {
    if entries != [] {
      FindOfResolved(show, context, entries[1..], key);
    }
  }

  /** How one value appears after resolution: a string with its references replaced, a list
      with its strings so replaced and its other items as they were, and any other leaf
      unchanged. */
  ghost predicate IsResolved(show: Show, context: Value, before: Value, after: Value) {
    match before
    case Text(t) => after == Text(Resolve(show, context, t))
    case List(items) =>
      && after.List? && |after.items| == |items|
      && forall i :: 0 <= i < |items| ==>
           after.items[i] == if items[i].Text? then Text(Resolve(show, context, items[i].text)) else items[i]
    case Dict(_) => after.Dict?
    case _ => after == before
  }

  lemma {:induction false} ItemsAreResolved(show: Show, context: Value, items: seq<Value>)
    ensures IsResolved(show, context, List(items), List(ResolveItems(show, context, items)))
  {
    hide Resolve;
    if items != [] {
      ItemsAreResolved(show, context, items[1..]);
      assert items == [items[0]] + items[1..];
    }
  }

  /** resolve_dict loses and invents nothing: every key path leads somewhere after resolution
      exactly when it did before, to the same value resolved. */
  lemma {:induction false} ResolutionKeepsEveryPath(show: Show, context: Value, value: Value, path: seq<string>)
    ensures At(ResolveValue(show, context, value), path) ==
            match At(value, path)
            case Some(v) => Some(ResolveValue(show, context, v))
            case None => None
    ensures At(value, path).Some? ==>
              IsResolved(show, context, At(value, path).value, At(ResolveValue(show, context, value), path).value)
    decreases path
  {
    hide Resolve;
    if path == [] {
      if value.List? {
        ItemsAreResolved(show, context, value.items);
      }
    }
    if path != [] && value.Dict? {
      FindOfResolved(show, context, value.entries, path[0]);
      if Find(value.entries, path[0]).Some? {
        ResolutionKeepsEveryPath(show, context, Find(value.entries, path[0]).value, path[1..]);
      }
    }
  }

  /** "{{" starts nowhere in t. */
  predicate NoOpening(t: string) {
    t == "" || (!("{{" <= t) && NoOpening(t[1..]))
  }

  /** No string that resolve_dict would scan contains "{{". */
  predicate TemplateFree(value: Value)
    decreases value
  {
    match value
    case Text(t) => NoOpening(t)
    case List(items) => forall i | 0 <= i < |items| :: items[i].Text? ==> NoOpening(items[i].text)
    case Dict(entries) => forall i | 0 <= i < |entries| :: TemplateFree(entries[i].value)
    case _ => true
  }

  lemma {:induction false} ResolveOfTemplateFreeText(show: Show, context: Value, t: string)
    requires NoOpening(t)
    ensures Resolve(show, context, t) == t
  {
    hide TryPadding, Replacement;
    if t != "" {
      ResolveOfTemplateFreeText(show, context, t[1..]);
      ResolveSkips(show, context, t);
    }
  }

  lemma {:induction false} ResolveOfTemplateFreeItems(show: Show, context: Value, items: seq<Value>)
    requires forall i | 0 <= i < |items| :: items[i].Text? ==> NoOpening(items[i].text)
    ensures ResolveItems(show, context, items) == items
  {
    if items != [] {
      if items[0].Text? {
        ResolveOfTemplateFreeText(show, context, items[0].text);
      }
      ResolveOfTemplateFreeItems(show, context, items[1..]);
    }
  }

  /** A config without "{{" is returned unchanged. */
  lemma {:induction false} ResolveOfTemplateFree(show: Show, context: Value, value: Value)
    requires TemplateFree(value)
    ensures ResolveValue(show, context, value) == value
    decreases value
  {
    match value
    case Text(t) => ResolveOfTemplateFreeText(show, context, t);
    case List(items) => ResolveOfTemplateFreeItems(show, context, items);
    case Dict(entries) => ResolveOfTemplateFreeEntries(show, context, entries);
    case _ =>
  }

  lemma {:induction false} ResolveOfTemplateFreeEntries(show: Show, context: Value, entries: seq<Entry>)
    requires forall i | 0 <= i < |entries| :: TemplateFree(entries[i].value)
    ensures ResolveEntries(show, context, entries) == entries
    decreases entries
  {
    if entries != [] {
      ResolveOfTemplateFree(show, context, entries[0].value);
      ResolveOfTemplateFreeEntries(show, context, entries[1..]);
    }
  }

  // ---------- Resolution at every depth ----------

  /** What "all string values" means: strings at every depth, also below list items. */
  function DeepResolve(show: Show, context: Value, value: Value): Value
    decreases value
  {
    match value
    case Text(_) => ResolveItem(show, context, value)
    case Dict(entries) => Dict(DeepResolveEntries(show, context, entries))
    case List(items) => List(DeepResolveItems(show, context, items))
    case _ => value
  }

  function DeepResolveEntries(show: Show, context: Value, entries: seq<Entry>): seq<Entry>
    decreases entries
  {
    if entries == [] then []
    else
      [Entry(entries[0].key, DeepResolve(show, context, entries[0].value))]
      + DeepResolveEntries(show, context, entries[1..])
  }

  function DeepResolveItems(show: Show, context: Value, items: seq<Value>): seq<Value>
    decreases items
  {
    if items == [] then [] else [DeepResolve(show, context, items[0])] + DeepResolveItems(show, context, items[1..])
  }

  /** No reference matches anywhere in t. */
  predicate Unmatched(t: string) {
    t == "" || (MatchPrefix(t).None? && Unmatched(t[1..]))
  }

  /** No string at any depth contains a reference. */
  predicate AllUnmatched(value: Value)
    decreases value
  {
    match value
    case Text(t) => Unmatched(t)
    case Dict(entries) => EntriesUnmatched(entries)
    case List(items) => ItemsUnmatched(items)
    case _ => true
  }

  predicate EntriesUnmatched(entries: seq<Entry>)
    decreases entries
  {
    entries == [] || (AllUnmatched(entries[0].value) && EntriesUnmatched(entries[1..]))
  }

  predicate ItemsUnmatched(items: seq<Value>)
    decreases items
  {
    items == [] || (AllUnmatched(items[0]) && ItemsUnmatched(items[1..]))
  }

  /** No list or dict that is itself a list item contains a reference. */
  predicate NestedUnmatched(value: Value)
    decreases value
  {
    match value
    case Dict(entries) => NestedEntriesUnmatched(entries)
    case List(items) => NestedItemsUnmatched(items)
    case _ => true
  }

  predicate NestedEntriesUnmatched(entries: seq<Entry>)
    decreases entries
  {
    entries == [] || (NestedUnmatched(entries[0].value) && NestedEntriesUnmatched(entries[1..]))
  }

  predicate NestedItemsUnmatched(items: seq<Value>)
    decreases items
  {
    items == [] || ((items[0].Text? || AllUnmatched(items[0])) && NestedItemsUnmatched(items[1..]))
  }

  lemma {:induction false} UnmatchedIsKept(show: Show, context: Value, t: string)
    requires Unmatched(t)
    ensures Resolve(show, context, t) == t
  {
    if t != "" {
      UnmatchedIsKept(show, context, t[1..]);
      assert t == [t[0]] + t[1..];
    }
  }

  const EMPTY := Dict([])

  /** Looked up in an empty context every reference is the empty string. */
  lemma ReplacedByNothing(show: Show, group: string)
    ensures Replacement(show, EMPTY, group) == ""
  {
    hide PyText.Strip;
    var path := SplitDots(Strip(group));
    assert Lookup(EMPTY, path) == Lookup(Text(""), path[1..]);
  }

  lemma {:induction false} MatchedShrinks(show: Show, t: string)
    ensures |Resolve(show, EMPTY, t)| <= |t|
    ensures !Unmatched(t) ==> |Resolve(show, EMPTY, t)| < |t|
    decreases |t|
  {
    hide MatchPrefix, Replacement;
    if t != "" {
      var m := MatchPrefix(t);
      if m.Some? {
        ReplacedByNothing(show, m.value.group);
        MatchedShrinks(show, m.value.rest);
      } else {
        MatchedShrinks(show, t[1..]);
      }
    }
  }

  /** A value without references is unchanged by full resolution, in every context; one with
      a reference is changed in the empty context. */
  lemma {:induction false} DeepFixedIff(show: Show, context: Value, value: Value)
    ensures AllUnmatched(value) ==> DeepResolve(show, context, value) == value
    ensures !AllUnmatched(value) ==> DeepResolve(show, EMPTY, value) != value
    decreases value
  {
    match value
    case Text(t) =>
      if Unmatched(t) {
        UnmatchedIsKept(show, context, t);
      } else {
        MatchedShrinks(show, t);
      }
    case Dict(entries) => DeepFixedEntries(show, context, entries);
    case List(items) => DeepFixedItems(show, context, items);
    case _ =>
  }

  lemma {:induction false} DeepFixedEntries(show: Show, context: Value, entries: seq<Entry>)
    ensures EntriesUnmatched(entries) ==> DeepResolveEntries(show, context, entries) == entries
    ensures !EntriesUnmatched(entries) ==> DeepResolveEntries(show, EMPTY, entries) != entries
    decreases entries
  {
    if entries != [] {
      DeepFixedIff(show, context, entries[0].value);
      DeepFixedEntries(show, context, entries[1..]);
      assert entries == [entries[0]] + entries[1..];
      ConsDiffers(Entry(entries[0].key, DeepResolve(show, EMPTY, entries[0].value)),
                  DeepResolveEntries(show, EMPTY, entries[1..]), entries);
    }
  }

  lemma {:induction false} DeepFixedItems(show: Show, context: Value, items: seq<Value>)
    ensures ItemsUnmatched(items) ==> DeepResolveItems(show, context, items) == items
    ensures !ItemsUnmatched(items) ==> DeepResolveItems(show, EMPTY, items) != items
    decreases items
  {
    if items != [] {
      DeepFixedIff(show, context, items[0]);
      DeepFixedItems(show, context, items[1..]);
      assert items == [items[0]] + items[1..];
      ConsDiffers(DeepResolve(show, EMPTY, items[0]), DeepResolveItems(show, EMPTY, items[1..]), items);
    }
  }

  lemma ConsDiffers<T>(x: T, rest: seq<T>, s: seq<T>)
    requires s != []
    ensures [x] + rest == s <==> x == s[0] && rest == s[1..]
  {
    assert s == [s[0]] + s[1..];
    assert ([x] + rest)[0] == x && ([x] + rest)[1..] == rest;
  }

  /** resolve_dict leaves strings below list items alone. It resolves all strings, in every
      context, if and only if no list or dict inside a list contains a reference; the empty
      context already tells the two apart. */
  lemma {:induction false} ResolvesAllStringsIff(show: Show, context: Value, value: Value)
    ensures NestedUnmatched(value) ==> ResolveValue(show, context, value) == DeepResolve(show, context, value)
    ensures !NestedUnmatched(value) ==> ResolveValue(show, EMPTY, value) != DeepResolve(show, EMPTY, value)
    decreases value
  {
    match value
    case Dict(entries) => ResolvesAllEntriesIff(show, context, entries);
    case List(items) => ResolvesAllItemsIff(show, context, items);
    case _ =>
  }

  lemma {:induction false} ResolvesAllEntriesIff(show: Show, context: Value, entries: seq<Entry>)
    ensures NestedEntriesUnmatched(entries) ==>
              ResolveEntries(show, context, entries) == DeepResolveEntries(show, context, entries)
    ensures !NestedEntriesUnmatched(entries) ==>
              ResolveEntries(show, EMPTY, entries) != DeepResolveEntries(show, EMPTY, entries)
    decreases entries
  {
    if entries != [] {
      ResolvesAllStringsIff(show, context, entries[0].value);
      ResolvesAllEntriesIff(show, context, entries[1..]);
      var deep := DeepResolveEntries(show, EMPTY, entries);
      assert deep[1..] == DeepResolveEntries(show, EMPTY, entries[1..]);
      ConsDiffers(Entry(entries[0].key, ResolveValue(show, EMPTY, entries[0].value)),
                  ResolveEntries(show, EMPTY, entries[1..]), deep);
    }
  }

  lemma {:induction false} ResolvesAllItemsIff(show: Show, context: Value, items: seq<Value>)
    ensures NestedItemsUnmatched(items) ==>
              ResolveItems(show, context, items) == DeepResolveItems(show, context, items)
    ensures !NestedItemsUnmatched(items) ==>
              ResolveItems(show, EMPTY, items) != DeepResolveItems(show, EMPTY, items)
    decreases items
  {
    if items != [] {
      DeepFixedIff(show, context, items[0]);
      ResolvesAllItemsIff(show, context, items[1..]);
      var deep := DeepResolveItems(show, EMPTY, items);
      assert deep[1..] == DeepResolveItems(show, EMPTY, items[1..]);
      ConsDiffers(ResolveItem(show, EMPTY, items[0]), ResolveItems(show, EMPTY, items[1..]), deep);
    }
  }

  /** A printed reference in a dict inside a list is left as it is. */
  lemma NestedReferenceIsNotResolved(show: Show, context: Value, key: string, left: string, names: seq<string>,
                                     right: string)
    requires IsSegment(Ref(left, names, right))
    ensures var value := List([Dict([Entry(key, Text(PrintSegment(Ref(left, names, right))))])]);
            && ResolveValue(show, context, value) == value
            && DeepResolve(show, EMPTY, value) != value
  {
    hide MatchPrefix, Resolve;
    var text := PrintSegment(Ref(left, names, right));
    var inner := Dict([Entry(key, Text(text))]);
    MatchOfReference(left, names, right, "");
    assert text + "" == text;
    assert !Unmatched(text);
    assert [Entry(key, Text(text))][1..] == [] && [inner][1..] == [];
    assert !EntriesUnmatched([Entry(key, Text(text))]);
    assert !ItemsUnmatched([inner]);
    DeepFixedIff(show, context, List([inner]));
    assert ResolveItems(show, context, [inner]) == [inner];
  }
}
