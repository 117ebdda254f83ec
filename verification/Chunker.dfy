// The text chunker: whitespace normalisation and overlapping windows of a fixed stride.
module Chunker {
  import opened Wrappers
  import opened PyText
  import opened Sequences

  const CHARS_PER_TOKEN: int := 4

  datatype ChunkError = SizeNotAboveOverlap | EmptyContent

  // ---------- Normalisation ----------

  /** re.sub(r"\s+", " ", s) */
  function Collapse(s: string): string
    decreases |s|
  {
    if s == "" then ""
    else if IsSpace(s[0]) then " " + Collapse(AfterSpaces(s[1..]))
    else [s[0]] + Collapse(s[1..])
  }

  function AfterSpaces(s: string): (r: string)
    ensures |r| <= |s|
    ensures r != "" ==> !IsSpace(r[0])
  {
    if s == "" || !IsSpace(s[0]) then s else AfterSpaces(s[1..])
  }

  function Normalize(text: string): string {
    Strip(Collapse(text))
  }

  /** str.split(): the maximal runs of characters that are not whitespace. */
  function Words(s: string): (ws: seq<string>)
    ensures s != "" && !IsSpace(s[0]) ==> |ws| > 0
  {
    if s == "" then []
    else if IsSpace(s[0]) then Words(s[1..])
    else if |s| == 1 || IsSpace(s[1]) then [[s[0]]] + Words(s[1..])
    else
      var rest := Words(s[1..]);
      [[s[0]] + rest[0]] + rest[1..]
  }

  /** Single spaces only, and none at either end. */
  predicate Normal(s: string) {
    forall i :: 0 <= i < |s| && IsSpace(s[i]) ==> s[i] == ' ' && 0 < i < |s| - 1 && !IsSpace(s[i + 1])
  }

  // ---------- Chunking ----------

  /** Python's s[lo:hi] for lo >= 0; a negative hi counts from the end. */
  function PySlice(s: string, lo: nat, hi: int): string {
    var end := if hi < 0 then |s| + hi else if hi > |s| then |s| else hi;
    if lo < end then s[lo..end] else ""
  }

  function ChunksFrom(s: string, pos: nat, size: int, stride: nat): seq<string>
    requires stride > 0
    decreases |s| - pos
  {
    if pos >= |s| then []
    else
      var chunk := PySlice(s, pos, pos + size);
      var rest := ChunksFrom(s, pos + stride, size, stride);
      if Strip(chunk) != "" then [chunk] + rest else rest
  }

  function Chunks(text: string, chunkSize: int, overlap: int): Result<seq<string>, ChunkError> {
    if chunkSize <= overlap then Err(SizeNotAboveOverlap)
    else if Normalize(text) == "" then Err(EmptyContent)
    else
      Ok(ChunksFrom(Normalize(text), 0, chunkSize * CHARS_PER_TOKEN, (chunkSize - overlap) * CHARS_PER_TOKEN))
  }

  method ChunkText(text: string, chunkSize: int, overlap: int) returns (result: Result<seq<string>, ChunkError>)
    ensures result == Chunks(text, chunkSize, overlap)
  {
    hide PySlice, Strip, Normalize;
    if chunkSize <= overlap {
      return Err(SizeNotAboveOverlap);
    }
    var charsPerChunk := chunkSize * CHARS_PER_TOKEN;
    var overlapChars := overlap * CHARS_PER_TOKEN;
    var stride := charsPerChunk - overlapChars;
    var normalized := Normalize(text);
    if normalized == "" {
      return Err(EmptyContent);
    }
    var chunks: seq<string> := [];
    var pos := 0;
    while pos < |normalized|
      invariant 0 <= pos
      invariant chunks + ChunksFrom(normalized, pos, charsPerChunk, stride) ==
                ChunksFrom(normalized, 0, charsPerChunk, stride)
      decreases |normalized| - pos
    {
      var chunk := PySlice(normalized, pos, pos + charsPerChunk);
      ghost var rest := ChunksFrom(normalized, pos + stride, charsPerChunk, stride);
      assert chunks + ([chunk] + rest) == (chunks + [chunk]) + rest;
      if Strip(chunk) != "" {
        chunks := chunks + [chunk];
      }
      pos := pos + stride;
    }
    assert chunks + [] == chunks;
    return Ok(chunks);
  }

  // ---------- What normalisation means ----------

  lemma {:induction false} RStripOfBlank(s: string)
    ensures RStrip(s) == "" <==> AllSpaces(s)
  {
    if s != "" && IsSpace(s[|s| - 1]) {
      RStripOfBlank(s[..|s| - 1]);
      assert s == s[..|s| - 1] + [s[|s| - 1]];
    }
  }

  lemma {:induction false} LeadingSpacesIsAfterSpaces(s: string)
    ensures s[LeadingSpaces(s)..] == AfterSpaces(s)
  {
    if s != "" && IsSpace(s[0]) {
      LeadingSpacesIsAfterSpaces(s[1..]);
      assert s[LeadingSpaces(s)..] == s[1..][LeadingSpaces(s[1..])..];
    }
  }

  lemma {:induction false} AfterSpacesOfBlank(s: string)
    ensures AllSpaces(AfterSpaces(s)) ==> AllSpaces(s)
  {
    if s != "" && IsSpace(s[0]) {
      AfterSpacesOfBlank(s[1..]);
      assert s == [s[0]] + s[1..];
    }
  }

  /** The blank-chunk test `chunk.strip()` is falsy exactly for all-whitespace chunks. */
  lemma StripEmptyIffBlank(s: string)
    ensures Strip(s) == "" <==> AllSpaces(s)
  {
    LeadingSpacesIsAfterSpaces(s);
    RStripOfBlank(AfterSpaces(s));
    AfterSpacesOfBlank(s);
    if AllSpaces(s) {
      LeadingSpacesOf(s, "");
      assert s + "" == s;
    }
  }

  /** Only single plain spaces, at most one of them leading. */
  predicate Collapsed(s: string) {
    forall i :: 0 <= i < |s| && IsSpace(s[i]) ==> s[i] == ' ' && (i < |s| - 1 ==> !IsSpace(s[i + 1]))
  }

  lemma {:induction false} CollapseIsCollapsed(s: string)
    ensures Collapsed(Collapse(s))
    ensures Collapse(s) != "" && s != "" && !IsSpace(s[0]) ==> !IsSpace(Collapse(s)[0])
    ensures s == "" ==> Collapse(s) == ""
    decreases |s|
  {
    if s != "" {
      if IsSpace(s[0]) {
        CollapseIsCollapsed(AfterSpaces(s[1..]));
      } else {
        CollapseIsCollapsed(s[1..]);
      }
    }
  }

  lemma {:induction false} RStripKeepsCollapsed(s: string)
    requires Collapsed(s) && (s != "" ==> !IsSpace(s[0]))
    ensures Normal(RStrip(s))
  {
    if s != "" && IsSpace(s[|s| - 1]) {
      RStripKeepsCollapsed(s[..|s| - 1]);
    }
  }

  lemma {:induction false} AfterSpacesIsSuffix(s: string)
    ensures exists k :: 0 <= k <= |s| && AfterSpaces(s) == s[k..]
  {
    if s != "" && IsSpace(s[0]) {
      AfterSpacesIsSuffix(s[1..]);
      var k :| 0 <= k <= |s[1..]| && AfterSpaces(s[1..]) == s[1..][k..];
      assert s[1..][k..] == s[k + 1..];
    } else {
      assert s[0..] == s;
    }
  }

  lemma NormalizeIsNormal(text: string)
    ensures Normal(Normalize(text))
  {
    var c := Collapse(text);
    CollapseIsCollapsed(text);
    LeadingSpacesIsAfterSpaces(c);
    AfterSpacesIsSuffix(c);
    RStripKeepsCollapsed(AfterSpaces(c));
  }

  lemma {:induction false} WordsOfAfterSpaces(s: string)
    ensures Words(AfterSpaces(s)) == Words(s)
  {
    if s != "" && IsSpace(s[0]) {
      WordsOfAfterSpaces(s[1..]);
    }
  }

  lemma {:induction false} WordsOfCollapse(s: string)
    ensures Words(Collapse(s)) == Words(s)
    decreases |s|
  {
    if s != "" {
      if IsSpace(s[0]) {
        var rest := AfterSpaces(s[1..]);
        WordsOfCollapse(rest);
        WordsOfAfterSpaces(s[1..]);
        assert (" " + Collapse(rest))[1..] == Collapse(rest);
      } else {
        WordsOfCollapse(s[1..]);
        var c := [s[0]] + Collapse(s[1..]);
        assert c[1..] == Collapse(s[1..]);
        if |s| > 1 {
          CollapseIsCollapsed(s[1..]);
          assert IsSpace(s[1]) ==> c[1] == ' ';
        }
      }
    }
  }

  lemma {:induction false} WordsDropTrailingSpace(s: string, c: char)
    requires IsSpace(c)
    ensures Words(s + [c]) == Words(s)
  {
    if s == "" {
      assert s + [c] == [c] && [c][1..] == "";
    } else {
      WordsDropTrailingSpace(s[1..], c);
      assert (s + [c])[1..] == s[1..] + [c];
    }
  }

  lemma {:induction false} WordsOfRStrip(s: string)
    ensures Words(RStrip(s)) == Words(s)
  {
    if s != "" && IsSpace(s[|s| - 1]) {
      WordsOfRStrip(s[..|s| - 1]);
      WordsDropTrailingSpace(s[..|s| - 1], s[|s| - 1]);
      assert s == s[..|s| - 1] + [s[|s| - 1]];
    }
  }

  /** Normalisation keeps every word of the text, in order, and adds none. */
  lemma NormalizeKeepsWords(text: string)
    ensures Words(Normalize(text)) == Words(text)
  {
    var c := Collapse(text);
    WordsOfCollapse(text);
    LeadingSpacesIsAfterSpaces(c);
    WordsOfAfterSpaces(c);
    WordsOfRStrip(AfterSpaces(c));
  }

  /** " ".join(words) */
  function JoinSpaces(words: seq<string>): string {
    if words == [] then ""
    else if |words| == 1 then words[0]
    else words[0] + " " + JoinSpaces(words[1..])
  }

  lemma {:induction false} NormalIsItsWords(s: string)
    requires Normal(s)
    ensures JoinSpaces(Words(s)) == s
  {
    if |s| == 1 {
      assert Words(s[1..]) == [] && [[s[0]]] + Words(s[1..]) == [[s[0]]];
    } else if s != "" {
      assert !IsSpace(s[0]);
      if IsSpace(s[1]) {
        NormalTail(s, 2);
        NormalIsItsWords(s[2..]);
        assert s[1..][1..] == s[2..] && s == [s[0]] + " " + s[2..];
        var rest := Words(s[2..]);
        assert Words(s) == [[s[0]]] + rest && ([[s[0]]] + rest)[1..] == rest && |rest| > 0;
      } else {
        NormalTail(s, 1);
        NormalIsItsWords(s[1..]);
        LengthenFirstWord(s[0], Words(s[1..]));
        assert s == [s[0]] + s[1..];
      }
    }
  }

  lemma NormalTail(s: string, k: nat)
    requires Normal(s) && k < |s| && !IsSpace(s[k])
    ensures Normal(s[k..])
  {
    var t := s[k..];
    forall i | 0 <= i < |t| && IsSpace(t[i])
      ensures t[i] == ' ' && 0 < i < |t| - 1 && !IsSpace(t[i + 1])
    {
      assert t[i] == s[k + i] && IsSpace(s[k + i]);
    }
  }

  lemma JoinFirstWord(first: string, rest: seq<string>)
    requires rest != []
    ensures JoinSpaces([first] + rest) == first + (" " + JoinSpaces(rest))
  {
    assert ([first] + rest)[1..] == rest;
    Associate(first, " ", JoinSpaces(rest));
  }

  lemma Associate(a: string, b: string, c: string)
    ensures (a + b) + c == a + (b + c)
  {
  }

  lemma LengthenFirstWord(c: char, words: seq<string>)
    requires |words| > 0
    ensures JoinSpaces([[c] + words[0]] + words[1..]) == [c] + JoinSpaces(words)
  {
    var first, rest := words[0], words[1..];
    if rest == [] {
      assert words == [first];
      assert [[c] + first] + [] == [[c] + first];
    } else {
      assert words == [first] + rest;
      hide JoinSpaces;
      JoinFirstWord([c] + first, rest);
      JoinFirstWord(first, rest);
      Associate([c], first, " " + JoinSpaces(rest));
    }
  }

  /** Normalisation is " ".join(text.split()). */
  lemma NormalizeJoinsTheWords(text: string)
    ensures Normalize(text) == JoinSpaces(Words(text))
  {
    NormalizeIsNormal(text);
    NormalizeKeepsWords(text);
    NormalIsItsWords(Normalize(text));
  }

  lemma {:induction false} WordsEmptyIff(s: string)
    ensures Words(s) == [] <==> AllSpaces(s)
  {
    if s != "" {
      WordsEmptyIff(s[1..]);
      assert s == [s[0]] + s[1..];
    }
  }

  /** A call is refused for its sizes, and otherwise for a text that is nothing but whitespace. */
  lemma RefusedIff(text: string, chunkSize: int, overlap: int)
    ensures Chunks(text, chunkSize, overlap) == Err(SizeNotAboveOverlap) <==> chunkSize <= overlap
    ensures Chunks(text, chunkSize, overlap) == Err(EmptyContent) <==> chunkSize > overlap && AllSpaces(text)
  {
    hide Words, JoinSpaces, Normalize;
    NormalizeKeepsWords(text);
    WordsEmptyIff(text);
    WordsEmptyIff(Normalize(text));
    NormalizeIsNormal(text);
    NormalIsBlankIff(Normalize(text));
  }

  lemma NormalIsBlankIff(s: string)
    requires Normal(s)
    ensures AllSpaces(s) <==> s == ""
  {
    if s != "" {
      var c := s[0];
      assert AllSpaces(s) ==> IsSpace(c);
    }
  }

  // ---------- The chunks ----------

  lemma BlankNeedsDoubleSpace(s: string, lo: nat, hi: nat)
    requires Normal(s) && lo < hi <= |s| && (hi - lo >= 2 || hi == |s|)
    ensures !AllSpaces(s[lo..hi])
  {
    var c := s[lo..hi];
    assert c[0] == s[lo];
    if hi - lo >= 2 {
      assert c[1] == s[lo + 1];
    }
  }

  /** The blank filter never fires on normalised text. */
  lemma NoChunkIsBlank(s: string, pos: nat, size: int)
    requires Normal(s) && pos < |s| && size >= 2
    ensures Strip(PySlice(s, pos, pos + size)) != ""
  {
    var end := if pos + size > |s| then |s| else pos + size;
    BlankNeedsDoubleSpace(s, pos, end);
    StripEmptyIffBlank(s[pos..end]);
  }

  function CeilDiv(a: nat, b: nat): nat
    requires b > 0
  {
    (a + b - 1) / b
  }

  lemma CeilDivStep(a: nat, b: nat)
    requires b > 0
    ensures a > 0 ==> CeilDiv(a, b) == 1 + (if a > b then CeilDiv(a - b, b) else 0)
    ensures a == 0 ==> CeilDiv(a, b) == 0
  {
    if a > b {
      DivShift(a - 1, b);
    } else if a > 0 {
      DivShift(a - 1, b);
      DivSmall(a - 1, b);
    } else {
      DivSmall(b - 1, b);
    }
  }

  lemma DivShift(x: nat, b: nat)
    requires b > 0
    ensures (x + b) / b == x / b + 1
  {
    var q, r := x / b, x % b;
    assert x + b == (q + 1) * b + r;
    DivIs(x + b, b, q + 1);
  }

  lemma DivSmall(x: nat, b: nat)
    requires x < b
    ensures x / b == 0
  {
  }

  lemma MulMonotone(a: nat, c: nat, b: nat)
    requires a <= c
    ensures a * b <= c * b
  {
  }

  lemma DivIs(x: nat, b: nat, q: nat)
    requires b > 0 && q * b <= x < (q + 1) * b
    ensures x / b == q
  {
    var p, r := x / b, x % b;
    assert x == p * b + r && (p + 1) * b == p * b + b;
    if p < q {
      MulMonotone(p + 1, q, b);
    } else if p > q {
      MulMonotone(q + 1, p, b);
    }
  }

  lemma ChunksUnfold(s: string, pos: nat, size: int, stride: nat)
    requires Normal(s) && size >= 2 && stride > 0
    ensures ChunksFrom(s, pos, size, stride) ==
            if pos < |s| then [PySlice(s, pos, pos + size)] + ChunksFrom(s, pos + stride, size, stride) else []
  {
    if pos < |s| {
      NoChunkIsBlank(s, pos, size);
    }
  }

  /** The windows of the text, one per stride. */
  function WindowsFrom(s: string, pos: nat, size: int, stride: nat): seq<string>
    requires stride > 0
    decreases |s| - pos
  {
    if pos >= |s| then [] else [PySlice(s, pos, pos + size)] + WindowsFrom(s, pos + stride, size, stride)
  }

  predicate NotBlank(chunk: string) {
    Strip(chunk) != ""
  }

  /** The chunks are the windows that are not blank. */
  lemma {:induction false} ChunksAreFiltered(s: string, pos: nat, size: int, stride: nat)
    requires stride > 0
    ensures ChunksFrom(s, pos, size, stride) == Filter(WindowsFrom(s, pos, size, stride), NotBlank)
    decreases |s| - pos
  {
    hide PySlice, PyText.Strip;
    if pos < |s| {
      ChunksAreFiltered(s, pos + stride, size, stride);
      var rest := WindowsFrom(s, pos + stride, size, stride);
      assert ([PySlice(s, pos, pos + size)] + rest)[1..] == rest;
    }
  }

  /** On normalised text a window of two or more characters is never blank. */
  lemma {:induction false} AllWindowsAreChunks(s: string, pos: nat, size: int, stride: nat)
    requires Normal(s) && size >= 2 && stride > 0
    ensures ChunksFrom(s, pos, size, stride) == WindowsFrom(s, pos, size, stride)
    decreases |s| - pos
  {
    hide Normal, PySlice;
    ChunksUnfold(s, pos, size, stride);
    if pos < |s| {
      AllWindowsAreChunks(s, pos + stride, size, stride);
    }
  }

  /** There are exactly ceil(n / stride) windows, one per stride. */
  lemma {:induction false} WindowCount(s: string, pos: nat, size: int, stride: nat)
    requires stride > 0
    ensures |WindowsFrom(s, pos, size, stride)| == if pos < |s| then CeilDiv(|s| - pos, stride) else 0
    decreases |s| - pos
  {
    hide CeilDiv, PySlice;
    if pos < |s| {
      WindowCount(s, pos + stride, size, stride);
      CeilDivStep(|s| - pos, stride);
    }
  }

  lemma Shift(pos: nat, stride: nat, i: nat)
    requires i > 0
    ensures (pos + stride) + (i - 1) * stride == pos + i * stride
  {
    assert i * stride == (i - 1) * stride + stride;
  }

  /** Window i starts at i * stride and is cut at the end of the text. */
  lemma {:induction false} WindowAt(s: string, pos: nat, size: int, stride: nat, i: nat)
    requires stride > 0 && i < |WindowsFrom(s, pos, size, stride)|
    ensures pos + i * stride < |s|
    ensures WindowsFrom(s, pos, size, stride)[i] == PySlice(s, pos + i * stride, pos + i * stride + size)
    decreases i
  {
    hide PySlice;
    if i > 0 {
      WindowAt(s, pos + stride, size, stride, i - 1);
      Shift(pos, stride, i);
    }
  }

  // ---------- Reconstruction ----------

  /** "".join(c[:n] for c in chunks) */
  function JoinPrefixes(chunks: seq<string>, n: nat): string {
    if chunks == [] then "" else Take(chunks[0], n) + JoinPrefixes(chunks[1..], n)
  }

  /** "".join(c[n:] for c in chunks) */
  function JoinRests(chunks: seq<string>, n: nat): string {
    if chunks == [] then "" else Drop(chunks[0], n) + JoinRests(chunks[1..], n)
  }

  lemma JoinCons(chunk: string, rest: seq<string>, n: nat)
    ensures JoinPrefixes([chunk] + rest, n) == Take(chunk, n) + JoinPrefixes(rest, n)
    ensures JoinRests([chunk] + rest, n) == Drop(chunk, n) + JoinRests(rest, n)
  {
    assert ([chunk] + rest)[1..] == rest;
  }

  lemma JoinNothing(n: nat)
    ensures JoinPrefixes([], n) == "" && JoinRests([], n) == ""
  {
  }

  lemma PrefixOfWindow(s: string, pos: nat, size: int, stride: nat)
    requires pos < |s| && size >= stride > 0
    ensures Take(PySlice(s, pos, pos + size), stride) == s[pos..if pos + stride < |s| then pos + stride else |s|]
  {
  }

  lemma {:induction false} JoinPrefixesFrom(s: string, pos: nat, size: int, stride: nat)
    requires Normal(s) && size >= 2 && size >= stride > 0
    ensures JoinPrefixes(ChunksFrom(s, pos, size, stride), stride) == if pos < |s| then s[pos..] else ""
    decreases |s| - pos
  {
    hide ChunksFrom, PySlice, Normal, Sequences.Take, JoinPrefixes, JoinRests;
    ChunksUnfold(s, pos, size, stride);
    JoinNothing(stride);
    if pos < |s| {
      JoinCons(PySlice(s, pos, pos + size), ChunksFrom(s, pos + stride, size, stride), stride);
      PrefixOfWindow(s, pos, size, stride);
      JoinPrefixesFrom(s, pos + stride, size, stride);
      if pos + stride < |s| {
        assert s[pos..pos + stride] + s[pos + stride..] == s[pos..];
      } else {
        assert s[pos..|s|] + "" == s[pos..];
      }
    }
  }

  lemma RestOfWindow(s: string, pos: nat, size: int, cut: nat)
    requires pos < |s| && cut <= size
    ensures Drop(PySlice(s, pos, pos + size), cut) ==
            if pos + cut < |s| then s[pos + cut..if pos + size < |s| then pos + size else |s|] else ""
  {
  }

  /** The new parts of the later chunks continue exactly where the first chunk stopped. */
  lemma {:induction false} JoinRestsFrom(s: string, pos: nat, size: int, stride: nat)
    requires Normal(s) && size >= 2 && size >= stride > 0
    ensures JoinRests(ChunksFrom(s, pos, size, stride), size - stride) ==
            if pos + (size - stride) < |s| then s[pos + (size - stride)..] else ""
    decreases |s| - pos
  {
    hide ChunksFrom, PySlice, Normal, Sequences.Drop, JoinPrefixes, JoinRests;
    var cut := size - stride;
    ChunksUnfold(s, pos, size, stride);
    JoinNothing(cut);
    if pos < |s| {
      JoinCons(PySlice(s, pos, pos + size), ChunksFrom(s, pos + stride, size, stride), cut);
      RestOfWindow(s, pos, size, cut);
      JoinRestsFrom(s, pos + stride, size, stride);
      assert pos + stride + cut == pos + size;
      if pos + size < |s| {
        assert s[pos + cut..pos + size] + s[pos + size..] == s[pos + cut..];
      } else if pos + cut < |s| {
        assert s[pos + cut..|s|] + "" == s[pos + cut..];
      }
    }
  }

  /** Main result: the chunks determine the normalised text. The first chunk followed by the
      later ones without their first overlap * 4 characters is the text, and so is the join
      of the first `stride` characters of every chunk. */
  lemma ChunksReconstructTheText(text: string, chunkSize: int, overlap: int)
    requires chunkSize > overlap >= 0 && Normalize(text) != ""
    ensures Chunks(text, chunkSize, overlap).Ok?
    ensures var chunks := Chunks(text, chunkSize, overlap).value;
            && |chunks| > 0
            && chunks[0] + JoinRests(chunks[1..], overlap * CHARS_PER_TOKEN) == Normalize(text)
            && JoinPrefixes(chunks, (chunkSize - overlap) * CHARS_PER_TOKEN) == Normalize(text)
  {
    var s, size, stride := Normalize(text), chunkSize * CHARS_PER_TOKEN, (chunkSize - overlap) * CHARS_PER_TOKEN;
    hide ChunksFrom, Normal, Normalize, JoinRests, JoinPrefixes, PyText.Strip;
    NormalizeIsNormal(text);
    ChunksUnfold(s, 0, size, stride);
    JoinPrefixesFrom(s, 0, size, stride);
    JoinRestsFrom(s, stride, size, stride);
    assert ChunksFrom(s, 0, size, stride)[1..] == ChunksFrom(s, stride, size, stride);
    assert stride + (size - stride) == size;
    FirstChunkThenRest(s, size);
    assert s[0..] == s;
  }

  lemma FirstChunkThenRest(s: string, size: nat)
    ensures PySlice(s, 0, 0 + size) + (if size < |s| then s[size..] else "") == s
  {
  }

  /** Every accepted call: the chunks are those of the ceil(n / stride) windows that are not
      blank, window i being the slice at i * stride; with a positive size that is all of them. */
  lemma ChunksAreTheWindows(text: string, chunkSize: int, overlap: int)
    requires chunkSize > overlap && Normalize(text) != ""
    ensures var (s, size) := (Normalize(text), chunkSize * CHARS_PER_TOKEN);
            var stride := (chunkSize - overlap) * CHARS_PER_TOKEN;
            var windows := WindowsFrom(s, 0, size, stride);
            && Chunks(text, chunkSize, overlap) == Ok(Filter(windows, NotBlank))
            && (chunkSize > 0 ==> Chunks(text, chunkSize, overlap) == Ok(windows))
            && |windows| == CeilDiv(|s|, stride)
            && forall i :: 0 <= i < |windows| ==> windows[i] == PySlice(s, i * stride, i * stride + size)
  {
    var s, size, stride := Normalize(text), chunkSize * CHARS_PER_TOKEN, (chunkSize - overlap) * CHARS_PER_TOKEN;
    hide ChunksFrom, WindowsFrom, Normal, Normalize, PySlice, CeilDiv, Sequences.Filter, PyText.Strip;
    NormalizeIsNormal(text);
    ChunksAreFiltered(s, 0, size, stride);
    WindowCount(s, 0, size, stride);
    forall i | 0 <= i < |WindowsFrom(s, 0, size, stride)|
      ensures WindowsFrom(s, 0, size, stride)[i] == PySlice(s, i * stride, i * stride + size)
    {
      WindowAt(s, 0, size, stride, i);
    }
    if chunkSize > 0 {
      AllWindowsAreChunks(s, 0, size, stride);
    }
  }

  lemma WindowLength(s: string, pos: nat, size: int, stride: nat)
    requires pos < |s| && 0 < size < stride
    ensures |Take(PySlice(s, pos, pos + size), stride)| == if pos + size < |s| then size else |s| - pos
  {
  }

  lemma {:induction false} GapsLoseText(s: string, pos: nat, size: int, stride: nat)
    requires Normal(s) && 2 <= size < stride && pos < |s|
    ensures |JoinPrefixes(ChunksFrom(s, pos, size, stride), stride)| <= |s| - pos
    ensures |s| - pos > size ==> |JoinPrefixes(ChunksFrom(s, pos, size, stride), stride)| < |s| - pos
    decreases |s| - pos
  {
    hide Normal, ChunksFrom, JoinPrefixes, JoinRests, PySlice, Sequences.Take, Sequences.Drop;
    ChunksUnfold(s, pos, size, stride);
    ChunksUnfold(s, pos + stride, size, stride);
    JoinNothing(stride);
    JoinCons(PySlice(s, pos, pos + size), ChunksFrom(s, pos + stride, size, stride), stride);
    WindowLength(s, pos, size, stride);
    if pos + stride < |s| {
      GapsLoseText(s, pos + stride, size, stride);
    }
  }

  lemma ShortTextIsOneChunk(s: string, size: int, stride: nat)
    requires Normal(s) && 2 <= size && 0 < |s| <= size < stride
    ensures JoinPrefixes(ChunksFrom(s, 0, size, stride), stride) == s
  {
    ChunksUnfold(s, 0, size, stride);
    ChunksUnfold(s, stride, size, stride);
    JoinCons(s, [], stride);
    assert [s] + [] == [s];
  }

  /** With a size that is not positive, a window never reaches the last character. */
  lemma EndIsNotInAWindow(s: string, pos: nat, size: int, stride: nat)
    requires pos < |s| && size <= 0 < stride
    ensures |Take(PySlice(s, pos, pos + size), stride)| <= (if stride < |s| - 1 - pos then stride else |s| - 1 - pos)
  {
  }

  lemma {:induction false} NoSizeLosesTheEnd(s: string, pos: nat, size: int, stride: nat)
    requires size <= 0 < stride && pos < |s|
    ensures |JoinPrefixes(ChunksFrom(s, pos, size, stride), stride)| < |s| - pos
    decreases |s| - pos
  {
    hide JoinPrefixes, PySlice, PyText.Strip, Sequences.Take;
    JoinNothing(stride);
    EndIsNotInAWindow(s, pos, size, stride);
    JoinCons(PySlice(s, pos, pos + size), ChunksFrom(s, pos + stride, size, stride), stride);
    if pos + stride < |s| {
      NoSizeLosesTheEnd(s, pos + stride, size, stride);
    }
  }

  /** For every accepted call: the first `stride` characters of the chunks make up the text if
      and only if the overlap is not negative or the text fits into one chunk. A negative
      overlap, which nothing rejects, leaves gaps; and with a size that is not positive, which
      it permits, the end of the text is in no chunk. */
  lemma ChunksCoverIff(text: string, chunkSize: int, overlap: int)
    requires chunkSize > overlap && Normalize(text) != ""
    ensures Chunks(text, chunkSize, overlap).Ok?
    ensures var chunks := Chunks(text, chunkSize, overlap).value;
            JoinPrefixes(chunks, (chunkSize - overlap) * CHARS_PER_TOKEN) == Normalize(text)
            <==> overlap >= 0 || |Normalize(text)| <= chunkSize * CHARS_PER_TOKEN
  {
    hide Normal, Normalize, ChunksFrom, JoinPrefixes;
    var s, size, stride := Normalize(text), chunkSize * CHARS_PER_TOKEN, (chunkSize - overlap) * CHARS_PER_TOKEN;
    NormalizeIsNormal(text);
    if overlap >= 0 {
      ChunksReconstructTheText(text, chunkSize, overlap);
    } else if chunkSize <= 0 {
      NoSizeLosesTheEnd(s, 0, size, stride);
    } else if |s| <= size {
      ShortTextIsOneChunk(s, size, stride);
    } else {
      GapsLoseText(s, 0, size, stride);
    }
  }

  lemma {:induction false} CollapseOfNoSpaces(s: string)
    requires NoSpaces(s)
    ensures Collapse(s) == s
  {
    if s != "" {
      CollapseOfNoSpaces(s[1..]);
      assert s == [s[0]] + s[1..];
    }
  }

  /** Two calls that lose the second half of every text of eight characters without
      whitespace: one with gaps between the chunks, one with a negative size. */
  lemma HalfTheTextIsLost(text: string)
    requires |text| == 8 && NoSpaces(text)
    ensures Chunks(text, 1, -1) == Ok([text[..4]])
    ensures Chunks(text, -1, -2) == Ok([text[..4]])
  {
    CollapseOfNoSpaces(text);
    StripOfTight(text);
    assert Normalize(text) == text;
    hide Normalize;
    StripEmptyIffBlank(text[..4]);
    StripEmptyIffBlank("");
    assert text[..4][0] == text[0];
    hide PyText.Strip;
    assert ChunksFrom(text, 8, 4, 8) == [] && ChunksFrom(text, 8, -4, 4) == [];
    assert PySlice(text, 0, 4) == text[..4] && PySlice(text, 0, -4) == text[..4] && PySlice(text, 4, 0) == "";
    assert [text[..4]] + [] == [text[..4]];
    assert ChunksFrom(text, 0, 4, 8) == [text[..4]] + [];
    assert ChunksFrom(text, 4, -4, 4) == [];
    assert ChunksFrom(text, 0, -4, 4) == [text[..4]] + [];
  }
}
