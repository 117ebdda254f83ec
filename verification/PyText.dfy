// The few Python string operations the templates and the chunker rely on.
module PyText {

  /** str.isspace, which is also what \s matches in a str pattern. */
  predicate IsSpace(c: char) {
    || '\t' <= c <= '\r'
    || '\U{1c}' <= c <= ' '
    || c == '\U{85}' || c == '\U{a0}' || c == '\U{1680}'
    || '\U{2000}' <= c <= '\U{200a}'
    || c == '\U{2028}' || c == '\U{2029}' || c == '\U{202f}' || c == '\U{205f}' || c == '\U{3000}'
  }

  const WHITESPACE :=
    "\t\n\U{b}\U{c}\r\U{1c}\U{1d}\U{1e}\U{1f} \U{85}\U{a0}\U{1680}\U{2000}\U{2001}\U{2002}\U{2003}\U{2004}"
    + "\U{2005}\U{2006}\U{2007}\U{2008}\U{2009}\U{200a}\U{2028}\U{2029}\U{202f}\U{205f}\U{3000}"

  /** The whitespace characters, one by one. */
  lemma IsSpaceIff(c: char)
    ensures IsSpace(c) <==> c in WHITESPACE
  {
  }

  predicate AllSpaces(s: string) {
    forall i :: 0 <= i < |s| ==> IsSpace(s[i])
  }

  predicate NoSpaces(s: string) {
    forall i :: 0 <= i < |s| ==> !IsSpace(s[i])
  }

  /** The length of the leading whitespace run. */
  function LeadingSpaces(s: string): (n: nat)
    ensures n <= |s|
  {
    if s == "" || !IsSpace(s[0]) then 0 else 1 + LeadingSpaces(s[1..])
  }

  /** It is a whitespace run, and nothing longer is. */
  lemma {:induction false} LeadingSpacesIsTheRun(s: string)
    ensures AllSpaces(s[..LeadingSpaces(s)])
    ensures LeadingSpaces(s) < |s| ==> !IsSpace(s[LeadingSpaces(s)])
  {
    if s != "" && IsSpace(s[0]) {
      LeadingSpacesIsTheRun(s[1..]);
      var m := LeadingSpaces(s[1..]);
      assert s[..m + 1] == [s[0]] + s[1..][..m];
    }
  }

  lemma {:induction false} LeadingSpacesIsLongest(s: string, w: nat)
    requires w <= |s| && AllSpaces(s[..w])
    ensures w <= LeadingSpaces(s)
  {
    if w > 0 {
      assert s[..w][0] == s[0];
      assert s[1..][..w - 1] == s[..w][1..];
      LeadingSpacesIsLongest(s[1..], w - 1);
    }
  }

  lemma {:induction false} LeadingSpacesIs(s: string, n: nat)
    requires n <= |s| && AllSpaces(s[..n]) && (n < |s| ==> !IsSpace(s[n]))
    ensures LeadingSpaces(s) == n
  {
    if n > 0 {
      assert s[..n][0] == s[0];
      assert s[1..][..n - 1] == s[..n][1..];
      LeadingSpacesIs(s[1..], n - 1);
    }
  }

  lemma LeadingSpacesOf(pad: string, tail: string)
    requires AllSpaces(pad) && (tail != "" ==> !IsSpace(tail[0]))
    ensures LeadingSpaces(pad + tail) == |pad|
  {
    assert (pad + tail)[..|pad|] == pad;
    LeadingSpacesIs(pad + tail, |pad|);
  }

  function RStrip(s: string): (r: string)
    ensures r <= s
  {
    if s == "" || !IsSpace(s[|s| - 1]) then s else RStrip(s[..|s| - 1])
  }

  function Strip(s: string): string {
    RStrip(s[LeadingSpaces(s)..])
  }

  lemma {:induction false} RStripRemovesTrailing(s: string) returns (right: string)
    ensures s == RStrip(s) + right && AllSpaces(right)
    ensures RStrip(s) != "" ==> !IsSpace(RStrip(s)[|RStrip(s)| - 1])
  {
    if s == "" || !IsSpace(s[|s| - 1]) {
      right := "";
      assert s == s + "";
    } else {
      var last := s[|s| - 1];
      var r := RStripRemovesTrailing(s[..|s| - 1]);
      right := r + [last];
      assert s == s[..|s| - 1] + [last];
    }
  }

  /** Stripping removes whitespace at both ends and nothing else. */
  lemma StripRemovesOuterWhitespace(s: string) returns (left: string, right: string)
    ensures s == left + Strip(s) + right && AllSpaces(left) && AllSpaces(right)
    ensures Strip(s) != "" ==> !IsSpace(Strip(s)[0]) && !IsSpace(Strip(s)[|Strip(s)| - 1])
  {
    hide RStrip, LeadingSpaces, IsSpace;
    var n := LeadingSpaces(s);
    LeadingSpacesIsTheRun(s);
    left := s[..n];
    right := RStripRemovesTrailing(s[n..]);
    assert s == s[..n] + s[n..];
    assert Strip(s) != "" ==> Strip(s)[0] == s[n..][0];
  }

  lemma StripOfTight(s: string)
    requires s != "" ==> !IsSpace(s[0]) && !IsSpace(s[|s| - 1])
    ensures Strip(s) == s
  {
  }

  /** s.split(".") */
  function SplitDots(s: string): (parts: seq<string>)
    ensures |parts| > 0
  {
    if s == "" then [""]
    else if s[0] == '.' then [""] + SplitDots(s[1..])
    else
      var rest := SplitDots(s[1..]);
      [[s[0]] + rest[0]] + rest[1..]
  }

  function JoinDots(parts: seq<string>): string
    requires |parts| > 0
  {
    if |parts| == 1 then parts[0] else parts[0] + "." + JoinDots(parts[1..])
  }

  lemma {:induction false} SplitOfDotFree(s: string)
    requires '.' !in s
    ensures SplitDots(s) == [s]
  {
    if s != "" {
      SplitOfDotFree(s[1..]);
      assert [s[0]] + s[1..] == s;
    }
  }

  lemma {:induction false} SplitOfPrefix(s: string, tail: string)
    requires '.' !in s
    ensures SplitDots(s + "." + tail) == [s] + SplitDots(tail)
  {
    var t := s + "." + tail;
    if s == "" {
      assert t[1..] == tail;
    } else {
      SplitOfPrefix(s[1..], tail);
      assert t[0] == s[0] && t[1..] == s[1..] + "." + tail;
      assert [s[0]] + s[1..] == s;
      assert ([s[1..]] + SplitDots(tail))[1..] == SplitDots(tail);
    }
  }

  /** Splitting undoes joining for dot-free names. */
  lemma {:induction false} SplitOfJoin(parts: seq<string>)
    requires |parts| > 0 && forall i :: 0 <= i < |parts| ==> '.' !in parts[i]
    ensures SplitDots(JoinDots(parts)) == parts
  {
    if |parts| == 1 {
      SplitOfDotFree(parts[0]);
    } else {
      SplitOfJoin(parts[1..]);
      SplitOfPrefix(parts[0], JoinDots(parts[1..]));
    }
  }
}
