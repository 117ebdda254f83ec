// Reading a model reply: the two patterns of the ReAct protocol,
//   ACTION:\s*(\{.*?\})\s*$   (ignoring case, "." matching newlines, "$" at every line end)
//   ANSWER:\s*(.*)            (ignoring case, "." stopping at a newline)
// and the choice between a tool call and an answer.
module AgentReply {
  import opened Wrappers
  import opened PyText

  type Params = map<string, string>

  datatype ToolCall = ToolCall(tool: string, params: Params)

  /** json.loads of a captured object: its call, or None if it is malformed, not a dict, or a
      dict without a "tool" key. */
  type Decoder = string -> Option<ToolCall>

  const ACTION := "ACTION:"

  const ANSWER := "ANSWER:"

  // ---------- The scanners ----------

  /** Equality under re.IGNORECASE, which also takes U+0130 and U+0131 for i, U+017F for s. */
  predicate SameLetter(c: char, upper: char) {
    || c == upper
    || ('A' <= upper <= 'Z' && c as int == upper as int + 32)
    || (upper == 'I' && (c == '\U{130}' || c == '\U{131}'))
    || (upper == 'S' && c == '\U{17f}')
  }

  predicate WordAt(t: string, p: nat, word: string) {
    p + |word| <= |t| && forall i :: 0 <= i < |word| ==> SameLetter(t[p + i], word[i])
  }

  /** \s*$: nothing but whitespace up to a line end. */
  predicate BlankToLineEnd(s: string) {
    s == "" || s[0] == '\n' || (IsSpace(s[0]) && BlankToLineEnd(s[1..]))
  }

  /** A lazy group may end at this brace. */
  predicate Closes(s: string, j: nat) {
    j < |s| && s[j] == '}' && BlankToLineEnd(s[j + 1..])
  }

  function CloseFrom(s: string, j: nat): (close: Option<nat>)
    ensures close.Some? ==> j <= close.value && Closes(s, close.value)
    ensures close.Some? ==> forall i :: j <= i < close.value ==> !Closes(s, i)
    ensures close.None? ==> forall i :: j <= i ==> !Closes(s, i)
    decreases |s| - j
  {
    if j >= |s| then None else if Closes(s, j) then Some(j) else CloseFrom(s, j + 1)
  }

  /** What follows "ACTION:". */
  function ObjectOf(after: string): Option<string> {
    var s := after[LeadingSpaces(after)..];
    if s == "" || s[0] != '{' then None
    else match CloseFrom(s, 1)
      case Some(j) => Some(s[..j + 1])
      case None => None
  }

  function FirstLine(s: string): (line: string)
    ensures line <= s && '\n' !in line
    ensures |line| < |s| ==> s[|line|] == '\n'
  {
    if s == "" || s[0] == '\n' then "" else [s[0]] + FirstLine(s[1..])
  }

  function ActionAt(t: string, p: nat): Option<string> {
    if WordAt(t, p, ACTION) then ObjectOf(t[p + |ACTION|..]) else None
  }

  function AnswerAt(t: string, p: nat): Option<string> {
    if !WordAt(t, p, ANSWER) then None
    else
      var after := t[p + |ANSWER|..];
      Some(FirstLine(after[LeadingSpaces(after)..]))
  }

  datatype Match = Match(start: nat, group: string)

  /** re.search: the leftmost match, from p on. */
  function SearchFrom(t: string, p: nat, at: (string, nat) -> Option<string>): (m: Option<Match>)
    ensures m.Some? ==> p <= m.value.start < |t| && at(t, m.value.start) == Some(m.value.group)
    ensures m.Some? ==> forall i :: p <= i < m.value.start ==> at(t, i).None?
    ensures m.None? ==> forall i :: p <= i < |t| ==> at(t, i).None?
    decreases |t| - p
  {
    if p >= |t| then None
    else if at(t, p).Some? then Some(Match(p, at(t, p).value))
    else SearchFrom(t, p + 1, at)
  }

  function FindAction(t: string): Option<Match> { SearchFrom(t, 0, ActionAt) }

  function FindAnswer(t: string): Option<Match> { SearchFrom(t, 0, AnswerAt) }

  /** _parse_response: (final answer | None, tool call | None) */
  function ParseResponse(decode: Decoder, t: string): (Option<string>, Option<ToolCall>) {
    var action, answer := FindAction(t), FindAnswer(t);
    if action.Some? && (answer.None? || action.value.start < answer.value.start)
       && decode(action.value.group).Some? then
      (None, decode(action.value.group))
    else if answer.Some? then (Some(Strip(answer.value.group)), None)
    else (Some(Strip(t)), None)
  }

  /** Exactly one of the two, so a turn never meets a reply that is neither. */
  lemma ParseGivesExactlyOne(decode: Decoder, t: string)
    ensures ParseResponse(decode, t).0.Some? <==> ParseResponse(decode, t).1.None?
  {
  }

  // ---------- The ACTION pattern, declaratively ----------

  /** A match at p: `w` spaces, an object of `g` characters, `u` spaces, a line end. */
  ghost predicate ActionParse(t: string, p: nat, w: nat, g: nat, u: nat) {
    var q := p + |ACTION|;
    && q + w + g + u <= |t| && WordAt(t, p, ACTION)
    && AllSpaces(t[q..q + w])
    && g >= 2 && t[q + w] == '{' && t[q + w + g - 1] == '}'
    && AllSpaces(t[q + w + g..q + w + g + u])
    && (q + w + g + u == |t| || t[q + w + g + u] == '\n')
  }

  /** A parse of what follows the word and the padding. */
  ghost predicate ObjectParse(s: string, g: nat, u: nat) {
    && g + u <= |s| && g >= 2 && s[0] == '{' && s[g - 1] == '}'
    && AllSpaces(s[g..g + u]) && (g + u == |s| || s[g + u] == '\n')
  }

  lemma {:induction false} BlankIff(s: string) returns (u: nat)
    ensures BlankToLineEnd(s) ==> u <= |s| && AllSpaces(s[..u]) && (u == |s| || s[u] == '\n')
    ensures !BlankToLineEnd(s) ==> forall v: nat :: v <= |s| && AllSpaces(s[..v]) ==> v < |s| && s[v] != '\n'
  {
    u := 0;
    if s != "" && s[0] != '\n' {
      var n := BlankIff(s[1..]);
      u := n + 1;
      if BlankToLineEnd(s) {
        assert s[..u] == [s[0]] + s[1..][..n];
      } else {
        forall v: nat | v <= |s| && AllSpaces(s[..v])
          ensures v < |s| && s[v] != '\n'
        {
          if v > 0 {
            assert s[..v][0] == s[0];
            assert s[1..][..v - 1] == s[..v][1..];
          }
        }
      }
    }
  }

  lemma ClosesIff(s: string, g: nat) returns (u: nat)
    requires g >= 2 && s != "" && s[0] == '{'
    ensures Closes(s, g - 1) ==> ObjectParse(s, g, u)
    ensures !Closes(s, g - 1) ==> forall v: nat :: !ObjectParse(s, g, v)
  {
    u := 0;
    if g <= |s| {
      u := BlankIff(s[g..]);
      forall v: nat | g + v <= |s|
        ensures s[g..][..v] == s[g..g + v]
      {
      }
    }
  }

  lemma ActionParseIsInside(t: string, p: nat, w: nat, g: nat, u: nat)
    requires ActionParse(t, p, w, g, u)
    ensures p < |t| && WordAt(t, p, ACTION) && p + |ACTION| + w <= |t|
  {
  }

  lemma ActionParseSplits(t: string, p: nat, w: nat, g: nat, u: nat)
    requires WordAt(t, p, ACTION) && p + |ACTION| + w <= |t|
    ensures ActionParse(t, p, w, g, u) <==>
            AllSpaces(t[p + |ACTION|..][..w]) && ObjectParse(t[p + |ACTION|..][w..], g, u)
  {
    var after := t[p + |ACTION|..];
    var s := after[w..];
    assert after[..w] == t[p + |ACTION|..p + |ACTION| + w];
    if g + u <= |s| {
      assert s[g..g + u] == t[p + |ACTION| + w + g..p + |ACTION| + w + g + u];
    }
  }

  /** The brace that must follow fixes the padding. */
  lemma PaddingIsForced(after: string, w: nat, g: nat, u: nat)
    requires w <= |after| && AllSpaces(after[..w]) && ObjectParse(after[w..], g, u)
    ensures w == LeadingSpaces(after)
  {
    assert after[w] == after[w..][0] == '{';
    LeadingSpacesIs(after, w);
  }

  ghost predicate ShortestAction(t: string, p: nat, w: nat, g: nat, u: nat) {
    && ActionParse(t, p, w, g, u)
    && forall w': nat, g': nat, u': nat :: ActionParse(t, p, w', g', u') ==> w' == w && g <= g'
  }

  /** At one position the scanner captures the shortest object that parses. */
  lemma ActionAtIsThePattern(t: string, p: nat) returns (w: nat, g: nat, u: nat)
    ensures ActionAt(t, p).None? ==> forall w': nat, g': nat, u': nat :: !ActionParse(t, p, w', g', u')
    ensures ActionAt(t, p).Some? ==>
              && ShortestAction(t, p, w, g, u)
              && ActionAt(t, p).value == t[p + |ACTION| + w..p + |ACTION| + w + g]
  {
    hide ActionParse, ObjectParse, CloseFrom, LeadingSpaces, AllSpaces;
    w, g, u := 0, 0, 0;
    forall w': nat, g': nat, u': nat | ActionParse(t, p, w', g', u')
      ensures WordAt(t, p, ACTION)
    {
      ActionParseIsInside(t, p, w', g', u');
    }
    if WordAt(t, p, ACTION) {
      var after := t[p + |ACTION|..];
      w := LeadingSpaces(after);
      var s := after[w..];
      LeadingSpacesIsTheRun(after);
      forall w': nat, g': nat, u': nat | ActionParse(t, p, w', g', u')
        ensures w' == w && ObjectParse(s, g', u')
      {
        ActionParseIsInside(t, p, w', g', u');
        ActionParseSplits(t, p, w', g', u');
        PaddingIsForced(after, w', g', u');
      }
      g, u := ShortestObject(s);
      if ActionAt(t, p).Some? {
        ActionParseSplits(t, p, w, g, u);
        assert s[..g] == t[p + |ACTION| + w..p + |ACTION| + w + g];
      }
    }
  }

  lemma ShortestObject(s: string) returns (g: nat, u: nat)
    ensures s == "" || s[0] != '{' || CloseFrom(s, 1).None? ==> forall g': nat, u': nat :: !ObjectParse(s, g', u')
    ensures s != "" && s[0] == '{' && CloseFrom(s, 1).Some? ==>
              && g == CloseFrom(s, 1).value + 1 && ObjectParse(s, g, u)
              && forall g': nat, u': nat :: ObjectParse(s, g', u') ==> g <= g'
  {
    g, u := 2, 0;
    if s != "" && s[0] == '{' {
      var close := CloseFrom(s, 1);
      if close.Some? {
        g := close.value + 1;
        u := ClosesIff(s, g);
      }
      forall g': nat, u': nat | ObjectParse(s, g', u')
        ensures Closes(s, g' - 1)
      {
        var _ := ClosesIff(s, g');
      }
    }
  }

  ghost predicate IsFirstAction(t: string, m: Match) {
    exists w: nat, g: nat, u: nat ::
      && ShortestAction(t, m.start, w, g, u)
      && m.group == t[m.start + |ACTION| + w..m.start + |ACTION| + w + g]
  }

  /** The search finds an action exactly when the pattern matches somewhere, and then the
      leftmost match, with the shortest object there. */
  lemma FindActionIsThePattern(t: string)
    ensures FindAction(t).None? ==> forall p: nat, w: nat, g: nat, u: nat :: !ActionParse(t, p, w, g, u)
    ensures FindAction(t).Some? ==>
              && IsFirstAction(t, FindAction(t).value)
              && forall p: nat, w: nat, g: nat, u: nat :: ActionParse(t, p, w, g, u) ==> FindAction(t).value.start <= p
  {
    hide ActionParse, ActionAt;
    var m := FindAction(t);
    forall p: nat, w: nat, g: nat, u: nat | ActionParse(t, p, w, g, u)
      ensures m.Some? && m.value.start <= p
    {
      var _, _, _ := ActionAtIsThePattern(t, p);
      ActionParseIsInside(t, p, w, g, u);
    }
    if m.Some? {
      var w, g, u := ActionAtIsThePattern(t, m.value.start);
    }
  }

  // ---------- Printing an action ----------

  /** A spelling of "ACTION:" or "ANSWER:". */
  predicate Spells(word: string, upper: string) {
    |word| == |upper| && WordAt(word, 0, upper)
  }

  /** Of the ASCII characters exactly a letter's two cases match it, and the colon itself. */
  lemma EitherCaseMatches(c: char, upper: char)
    requires c < '\U{80}' && ('A' <= upper <= 'Z' || upper == ':')
    ensures SameLetter(c, upper) <==> c == upper || ('A' <= upper <= 'Z' && c == upper - 'A' + 'a')
  {
  }

  lemma WordOfPrint(pre: string, word: string, rest: string, upper: string)
    requires Spells(word, upper)
    ensures WordAt(pre + word + rest, |pre|, upper)
    ensures (pre + word + rest)[|pre| + |upper|..] == rest
  {
    var t := pre + word + rest;
    forall i | 0 <= i < |upper|
      ensures SameLetter(t[|pre| + i], upper[i])
    {
      assert t[|pre| + i] == word[i] == word[0 + i];
    }
  }

  /** Text that may follow an object on its line. */
  predicate EndsLine(trail: string, post: string) {
    AllSpaces(trail) && (post == "" || post[0] == '\n')
  }

  lemma {:induction false} BlankTrail(trail: string, post: string)
    requires EndsLine(trail, post)
    ensures BlankToLineEnd(trail + post)
  {
    if trail == "" {
      assert trail + post == post;
    } else {
      BlankTrail(trail[1..], post);
      assert (trail + post)[1..] == trail[1..] + post;
    }
  }

  /** Text after a character that is not whitespace does not matter. */
  lemma {:induction false} BlankIsLocal(a: string, b: string)
    requires a != "" && !IsSpace(a[|a| - 1])
    ensures BlankToLineEnd(a + b) == BlankToLineEnd(a)
  {
    if |a| > 1 {
      BlankIsLocal(a[1..], b);
      assert (a + b)[1..] == a[1..] + b;
    }
  }

  predicate IsObject(json: string) {
    |json| >= 2 && json[0] == '{' && json[|json| - 1] == '}'
  }

  /** A line inside the object ends in a closing brace. */
  ghost predicate BreaksEarly(json: string) {
    exists j :: 1 <= j < |json| - 1 && Closes(json, j)
  }

  lemma ClosesInPrint(json: string, tail: string, j: nat)
    requires IsObject(json) && j < |json| - 1
    ensures Closes(json + tail, j) <==> Closes(json, j)
  {
    assert (json + tail)[j + 1..] == json[j + 1..] + tail;
    BlankIsLocal(json[j + 1..], tail);
  }

  lemma CloseInPrint(json: string, tail: string)
    requires IsObject(json) && BlankToLineEnd(tail)
    ensures CloseFrom(json, 1).Some? && CloseFrom(json + tail, 1) == CloseFrom(json, 1)
    ensures CloseFrom(json, 1).value < |json|
    ensures CloseFrom(json, 1).value + 1 == |json| <==> !BreaksEarly(json)
  {
    var s, n := json + tail, |json| - 1;
    assert s[n + 1..] == tail && json[n + 1..] == "";
    assert Closes(s, n) && Closes(json, n);
    forall j: nat | j < n
      ensures Closes(s, j) <==> Closes(json, j)
    {
      ClosesInPrint(json, tail, j);
    }
    hide Closes, CloseFrom, BlankToLineEnd;
    assert CloseFrom(s, 1).Some? && CloseFrom(json, 1).Some?;
  }

  lemma ObjectAfterPadding(pad: string, s: string)
    requires AllSpaces(pad) && s != "" && s[0] == '{' && CloseFrom(s, 1).Some?
    ensures ObjectOf(pad + s) == Some(s[..CloseFrom(s, 1).value + 1])
  {
    hide CloseFrom, Closes, LeadingSpaces;
    LeadingSpacesOf(pad, s);
    assert (pad + s)[|pad|..] == s;
  }

  lemma ObjectOfPrint(pad: string, json: string, trail: string, post: string)
    requires AllSpaces(pad) && IsObject(json) && EndsLine(trail, post)
    ensures var close := CloseFrom(json, 1);
            && close.Some? && ObjectOf(pad + (json + (trail + post))) == Some(json[..close.value + 1])
            && (close.value + 1 == |json| <==> !BreaksEarly(json))
  {
    hide CloseFrom, Closes, ObjectOf, AllSpaces, EndsLine, BreaksEarly, BlankToLineEnd;
    var tail := trail + post;
    var s := json + tail;
    BlankTrail(trail, post);
    CloseInPrint(json, tail);
    ObjectAfterPadding(pad, s);
    var close := CloseFrom(json, 1).value;
    assert s[..close + 1] == json[..close + 1];
  }

  /** An object printed after "ACTION:" is captured up to its first closing brace at a line end,
      so whole if and only if no line inside it ends in one. */
  lemma PrintedActionIsCapturedIff(pre: string, word: string, pad: string, json: string, trail: string, post: string)
    requires Spells(word, ACTION) && AllSpaces(pad) && IsObject(json) && EndsLine(trail, post)
    requires forall p: nat :: p < |pre| ==> !WordAt(pre + word + (pad + (json + (trail + post))), p, ACTION)
    ensures var m := FindAction(pre + word + (pad + (json + (trail + post))));
            var close := CloseFrom(json, 1);
            && close.Some? && m == Some(Match(|pre|, json[..close.value + 1]))
            && (m.value.group == json <==> !BreaksEarly(json))
  {
    var rest := pad + (json + (trail + post));
    var t := pre + word + rest;
    WordOfPrint(pre, word, rest, ACTION);
    ObjectOfPrint(pad, json, trail, post);
    var m := FindAction(t);
    assert ActionAt(t, |pre|) == ObjectOf(rest);
    assert m.Some? && m.value.start <= |pre|;
    assert WordAt(t, m.value.start, ACTION);
  }

  lemma {:induction false} BlankNeedsNewline(s: string)
    requires '\n' !in s && s != "" && !IsSpace(s[|s| - 1])
    ensures !BlankToLineEnd(s)
  {
    if |s| > 1 {
      BlankNeedsNewline(s[1..]);
    }
  }

  /** An object on one line never breaks, whatever braces it contains. */
  lemma OneLineObjectIsWhole(json: string)
    requires IsObject(json) && '\n' !in json
    ensures !BreaksEarly(json)
  {
    forall j | 1 <= j < |json| - 1
      ensures !Closes(json, j)
    {
      BlankNeedsNewline(json[j + 1..]);
    }
  }

  /** Main result for actions: a one-line object after the first "ACTION:" of a reply is the
      tool call executed, whatever it contains (even "ANSWER:" or "ACTION:") and whatever
      follows, unless an "ANSWER:" precedes it. */
  lemma PrintedActionIsExecuted(decode: Decoder, pre: string, word: string, pad: string, json: string,
                                trail: string, post: string)
    requires Spells(word, ACTION) && AllSpaces(pad) && IsObject(json) && '\n' !in json && EndsLine(trail, post)
    requires forall p: nat :: p < |pre| ==>
               !WordAt(pre + word + (pad + (json + (trail + post))), p, ACTION) &&
               !WordAt(pre + word + (pad + (json + (trail + post))), p, ANSWER)
    requires decode(json).Some?
    ensures ParseResponse(decode, pre + word + (pad + (json + (trail + post)))) == (None, decode(json))
  {
    var t := pre + word + (pad + (json + (trail + post)));
    OneLineObjectIsWhole(json);
    PrintedActionIsCapturedIff(pre, word, pad, json, trail, post);
    WordOfPrint(pre, word, pad + (json + (trail + post)), ACTION);
    var answer := FindAnswer(t);
    NotBothWords(t, |pre|);
    if answer.Some? {
      assert WordAt(t, answer.value.start, ANSWER);
    }
  }

  lemma NotBothWords(t: string, p: nat)
    ensures !(WordAt(t, p, ACTION) && WordAt(t, p, ANSWER))
  {
    assert WordAt(t, p, ACTION) ==> SameLetter(t[p + 1], ACTION[1]);
    assert WordAt(t, p, ANSWER) ==> SameLetter(t[p + 1], ANSWER[1]);
  }

  /** The same without the one-line condition, in a reply that has no "ANSWER:": the captured
      part decides. If it does not decode, the whole reply is handed on as the answer. */
  lemma PrintedActionDecides(decode: Decoder, pre: string, word: string, pad: string, json: string,
                             trail: string, post: string)
    requires Spells(word, ACTION) && AllSpaces(pad) && IsObject(json) && EndsLine(trail, post)
    requires forall p: nat :: p < |pre| ==> !WordAt(pre + word + (pad + (json + (trail + post))), p, ACTION)
    requires forall p: nat :: !WordAt(pre + word + (pad + (json + (trail + post))), p, ANSWER)
    ensures var t, close := pre + word + (pad + (json + (trail + post))), CloseFrom(json, 1);
            && close.Some?
            && var captured := json[..close.value + 1];
            && ParseResponse(decode, t) ==
               (if decode(captured).Some? then (None, decode(captured)) else (Some(Strip(t)), None))
  {
    hide CloseFrom, BreaksEarly, PyText.Strip;
    PrintedActionIsCapturedIff(pre, word, pad, json, trail, post);
  }

  /** The match that counts: the shortest at the leftmost position. */
  ghost predicate IsLeftmost(t: string, p: nat, w: nat, g: nat, u: nat) {
    && ShortestAction(t, p, w, g, u)
    && forall p': nat, w': nat, g': nat, u': nat :: ActionParse(t, p', w', g', u') ==> p <= p'
  }

  /** The object of a match. */
  function ObjectAt(t: string, p: nat, w: nat, g: nat): string
    requires p + |ACTION| + w + g <= |t|
  {
    t[p + |ACTION| + w..p + |ACTION| + w + g]
  }

  /** The search returns the match that counts, and only that one. */
  lemma LeftmostIsFound(t: string) returns (w: nat, g: nat, u: nat)
    ensures FindAction(t).Some? ==>
              && IsLeftmost(t, FindAction(t).value.start, w, g, u)
              && FindAction(t).value.group == ObjectAt(t, FindAction(t).value.start, w, g)
    ensures forall p': nat, w': nat, g': nat, u': nat :: IsLeftmost(t, p', w', g', u') ==>
              && FindAction(t).Some? && p' == FindAction(t).value.start
              && ObjectAt(t, p', w', g') == FindAction(t).value.group
  {
    hide ActionParse, ActionAt, WordAt;
    w, g, u := 0, 0, 0;
    FindActionIsThePattern(t);
    var m := FindAction(t);
    if m.Some? {
      w, g, u := ActionAtIsThePattern(t, m.value.start);
    }
  }

  /** A reply without "ANSWER:" is itself the answer if and only if its first action, if it has
      any, does not decode; otherwise that action is the tool call. */
  lemma ReplyWithoutAnswer(decode: Decoder, t: string)
    requires forall p: nat :: !WordAt(t, p, ANSWER)
    ensures ParseResponse(decode, t) == (Some(Strip(t)), None) <==>
            forall p: nat, w: nat, g: nat, u: nat :: IsLeftmost(t, p, w, g, u) ==> decode(ObjectAt(t, p, w, g)).None?
    ensures forall p: nat, w: nat, g: nat, u: nat :: IsLeftmost(t, p, w, g, u) && decode(ObjectAt(t, p, w, g)).Some? ==>
              ParseResponse(decode, t) == (None, decode(ObjectAt(t, p, w, g)))
  {
    hide IsLeftmost, WordAt, PyText.Strip, ObjectAt;
    var w, g, u := LeftmostIsFound(t);
  }

  /** Neither pattern matches without a colon. */
  lemma PlainTextIsTheAnswer(decode: Decoder, t: string)
    requires ':' !in t
    ensures ParseResponse(decode, t) == (Some(Strip(t)), None)
  {
    hide PyText.Strip;
    forall p: nat
      ensures !WordAt(t, p, ANSWER) && !WordAt(t, p, ACTION)
    {
      if p + 7 <= |t| {
        assert t[p + 6] in t;
        assert !SameLetter(t[p + 6], ANSWER[6]) && !SameLetter(t[p + 6], ACTION[6]);
      }
    }
  }

  /** A call printed over several lines may be cut short, here after its params; unless that
      part decodes, the user is given the raw reply. */
  lemma PrettyPrintedCallIsCutShort(decode: Decoder)
    ensures var json := "{\"params\":{}\n,\"tool\":\"x\"}";
            && IsObject(json) && json[..12] == "{\"params\":{}"
            && ParseResponse(decode, ACTION + json) ==
               (if decode(json[..12]).Some? then (None, decode(json[..12])) else (Some(Strip(ACTION + json)), None))
  {
    var json := "{\"params\":{}\n,\"tool\":\"x\"}";
    PrettyPrintedClosesEarly();
    BarePrint(ACTION, json);
    PrettyPrintedHasNoAnswer();
    hide ParseResponse, WordAt, CloseFrom, PyText.Strip;
    assert Spells(ACTION, ACTION) by {
      SpellsItself();
    }
    PrintedActionDecides(decode, "", ACTION, "", json, "", "");
  }

  lemma BarePrint(word: string, json: string)
    ensures "" + word + ("" + (json + ("" + ""))) == word + json
  {
  }

  lemma SpellsItself()
    ensures Spells(ACTION, ACTION)
  {
  }

  lemma PrettyPrintedClosesEarly()
    ensures var json := "{\"params\":{}\n,\"tool\":\"x\"}";
            IsObject(json) && CloseFrom(json, 1) == Some(11) && json[..12] == "{\"params\":{}"
  {
    var json := "{\"params\":{}\n,\"tool\":\"x\"}";
    assert json[11] == '}' && json[12..][0] == '\n';
    assert Closes(json, 11);
    assert forall i :: 1 <= i < 11 ==> json[i] != '}';
  }

  lemma PrettyPrintedHasNoAnswer()
    ensures forall p: nat :: !WordAt(ACTION + "{\"params\":{}\n,\"tool\":\"x\"}", p, ANSWER)
  {
    var t := ACTION + "{\"params\":{}\n,\"tool\":\"x\"}";
    forall p: nat
      ensures !WordAt(t, p, ANSWER)
    {
      assert WordAt(t, p, ANSWER) ==> SameLetter(t[p + 3], ANSWER[3]);
    }
  }

  // ---------- Printing an answer ----------

  lemma {:induction false} FirstLineOf(line: string, rest: string)
    requires '\n' !in line && (rest == "" || rest[0] == '\n')
    ensures FirstLine(line + rest) == line
  {
    if line == "" {
      assert line + rest == rest;
    } else {
      FirstLineOf(line[1..], rest);
      assert (line + rest)[1..] == line[1..] + rest;
    }
  }

  /** The first "ANSWER:" of a printed answer is found, with its line. */
  lemma PrintedAnswerIsFound(pre: string, word: string, pad: string, line: string, post: string)
    requires Spells(word, ANSWER) && AllSpaces(pad) && '\n' !in line
    requires if line == "" then post == "" else !IsSpace(line[0]) && (post == "" || post[0] == '\n')
    requires forall p: nat :: p < |pre| ==> !WordAt(pre + word + (pad + (line + post)), p, ANSWER)
    ensures FindAnswer(pre + word + (pad + (line + post))) == Some(Match(|pre|, line))
    ensures ActionAt(pre + word + (pad + (line + post)), |pre|).None?
  {
    hide Spells, WordAt, AllSpaces;
    var rest := pad + (line + post);
    var t := pre + word + rest;
    WordOfPrint(pre, word, rest, ANSWER);
    LineAfterPadding(pad, line, post);
    assert AnswerAt(t, |pre|) == Some(line);
    NotBothWords(t, |pre|);
    hide FirstLine, LeadingSpaces;
    var answer := FindAnswer(t);
    assert answer.Some? && answer.value.start <= |pre|;
    assert WordAt(t, answer.value.start, ANSWER);
  }

  lemma LineAfterPadding(pad: string, line: string, post: string)
    requires AllSpaces(pad) && '\n' !in line
    requires if line == "" then post == "" else !IsSpace(line[0]) && (post == "" || post[0] == '\n')
    ensures var rest := pad + (line + post); FirstLine(rest[LeadingSpaces(rest)..]) == line
  {
    hide FirstLine;
    var rest := pad + (line + post);
    LeadingSpacesOf(pad, line + post);
    assert rest[|pad|..] == line + post;
    FirstLineOf(line, post);
  }

  /** An action before the first "ANSWER:" that decodes. */
  ghost predicate CallsBefore(decode: Decoder, t: string, n: nat, p: nat, w: nat, g: nat, u: nat) {
    p < n && IsLeftmost(t, p, w, g, u) && decode(ObjectAt(t, p, w, g)).Some?
  }

  /** Main result for answers: the line after the first "ANSWER:" of a reply, past any
      whitespace, is the final answer if and only if the reply's first action does not both
      come before it and decode; otherwise that action is the tool call. An action that does
      not decode never hides the answer behind it. */
  lemma PrintedAnswerIsReturnedIff(decode: Decoder, pre: string, word: string, pad: string, line: string, post: string)
    requires Spells(word, ANSWER) && AllSpaces(pad) && '\n' !in line
    requires if line == "" then post == "" else !IsSpace(line[0]) && (post == "" || post[0] == '\n')
    requires forall p: nat :: p < |pre| ==> !WordAt(pre + word + (pad + (line + post)), p, ANSWER)
    ensures var t := pre + word + (pad + (line + post));
            && (ParseResponse(decode, t) == (Some(Strip(line)), None) <==>
                forall p: nat, w: nat, g: nat, u: nat :: !CallsBefore(decode, t, |pre|, p, w, g, u))
            && forall p: nat, w: nat, g: nat, u: nat :: CallsBefore(decode, t, |pre|, p, w, g, u) ==>
                 ParseResponse(decode, t) == (None, decode(ObjectAt(t, p, w, g)))
  {
    hide WordAt, PyText.Strip, AllSpaces, Spells, ActionAt, AnswerAt;
    var t := pre + word + (pad + (line + post));
    PrintedAnswerIsFound(pre, word, pad, line, post);
    var w, g, u := LeftmostIsFound(t);
    hide IsLeftmost, ObjectAt;
    var action := FindAction(t);
    assert action.Some? ==> ActionAt(t, action.value.start).Some?;
    if action.Some? && action.value.start < |pre| && decode(action.value.group).Some? {
      assert CallsBefore(decode, t, |pre|, action.value.start, w, g, u);
    }
  }
}
