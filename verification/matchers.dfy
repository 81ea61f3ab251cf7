/** Hand-written matchers for the two line patterns of the `case` in
    `LogColorizer#run`, applied to a stripped line:
      `^(Date|From|Subj): (.*)$`  and  `^File: (.*?)(\s+)\((\d+)\)`.
    The line holds no line feed (see `Text.StripSingleLine`), so `^` and `$`
    are the ends of the line and `.` matches every character. */
module Matchers {
  import opened Wrappers
  import opened Text

  datatype Label = Date | From | Subj

  /** The label as it is written in the log and echoed in the output. */
  function LabelText(l: Label): string {
    match l
    case Date => "Date"
    case From => "From"
    case Subj => "Subj"
  }

  /** The field key, `label.downcase`. */
  function Key(l: Label): string {
    Lower(LabelText(l))
  }

  lemma KeyOfLabel()
    ensures Key(Date) == "date" && Key(From) == "from" && Key(Subj) == "subj"
  {
  }

  /** The two captures of the first pattern. */
  datatype FieldMatch = FieldMatch(tag: Label, value: string)

  /** `line` reads `<label>: <value>`. */
  predicate IsFieldLine(line: string, l: Label, value: string) {
    line == LabelText(l) + ": " + value
  }

  function MatchField(line: string): Option<FieldMatch> {
    if |line| < 6 || line[4..6] != ": " then None
    else if line[..4] == "Date" then Some(FieldMatch(Date, line[6..]))
    else if line[..4] == "From" then Some(FieldMatch(From, line[6..]))
    else if line[..4] == "Subj" then Some(FieldMatch(Subj, line[6..]))
    else None
  }

  /** The field matcher captures `l` and `value` exactly when the line is
      `<l>: <value>`; the value is everything after the colon and one space. */
  lemma MatchFieldIff(line: string, l: Label, value: string)
    ensures MatchField(line) == Some(FieldMatch(l, value)) <==> IsFieldLine(line, l, value)
  {
    if IsFieldLine(line, l, value) {
      assert line[..4] == LabelText(l) && line[4..6] == ": " && line[6..] == value;
    }
  }

  /** The captures of the second pattern, and the unmatched `tail` after the
      closing parenthesis. */
  datatype FileMatch = FileMatch(name: string, ws: string, size: string, tail: string)

  /** `rest` reads `<name><ws>(<size>)<tail>` with a non-empty whitespace
      run and a non-empty digit run: what the pattern after `File: ` accepts
      for a filename capture of `name`. */
  predicate IsSplit(rest: string, name: string, ws: string, size: string, tail: string) {
    && rest == name + ws + "(" + size + ")" + tail
    && |ws| > 0 && AllSpace(ws)
    && |size| > 0 && AllDigits(size)
  }

  predicate IsFileSplit(line: string, name: string, ws: string, size: string, tail: string) {
    StartsWith(line, "File: ") && IsSplit(line[6..], name, ws, size, tail)
  }

  /** The non-greedy capture: a split whose filename is no longer than that
      of any other split of the line. */
  ghost predicate IsShortestFileSplit(line: string, m: FileMatch) {
    && IsFileSplit(line, m.name, m.ws, m.size, m.tail)
    && forall n, w, s, t :: IsFileSplit(line, n, w, s, t) ==> |m.name| <= |n|
  }

  /** The length of the longest run of characters satisfying `p` from `i`. */
  function Span(s: string, i: nat, p: char -> bool): (n: nat)
    requires i <= |s|
    ensures i + n <= |s|
    ensures forall k :: i <= k < i + n ==> p(s[k])
    ensures i + n == |s| || !p(s[i + n])
    decreases |s| - i
  {
    if i < |s| && p(s[i]) then 1 + Span(s, i + 1, p) else 0
  }

  /** Tries `(\s+)\((\d+)\)` at index `k`, giving the lengths of the two runs.
      Both runs are taken greedily: the character that must follow each run
      lies outside its class, so no shorter run could succeed instead. */
  function ShapeAt(rest: string, k: nat): (r: Option<(nat, nat)>)
    requires k <= |rest|
    ensures r.Some? ==> k + r.value.0 + r.value.1 + 2 <= |rest|
  {
    var w := Span(rest, k, IsSpace);
    if w == 0 || k + w == |rest| || rest[k + w] != '(' then None
    else
      var d := Span(rest, k + w + 1, IsDigit);
      if d == 0 || k + w + 1 + d == |rest| || rest[k + w + 1 + d] != ')' then None
      else Some((w, d))
  }

  /** `ShapeAt` succeeds at `k` exactly when some split has a filename of
      length `k`, and then it measures that split's runs. */
  lemma ShapeAtSound(rest: string, k: nat)
    requires k <= |rest| && ShapeAt(rest, k).Some?
    ensures var m := SplitAt(rest, k);
            IsSplit(rest, m.name, m.ws, m.size, m.tail)
  {
    var m := SplitAt(rest, k);
    ShapeAtRuns(rest, k, m);
    ShapeAtPieces(rest, k, m);
  }

  lemma ShapeAtRuns(rest: string, k: nat, m: FileMatch)
    requires k <= |rest| && ShapeAt(rest, k).Some? && m == SplitAt(rest, k)
    ensures |m.ws| > 0 && AllSpace(m.ws) && |m.size| > 0 && AllDigits(m.size)
  {
    var (w, d) := ShapeAt(rest, k).value;
    assert forall i :: 0 <= i < w ==> m.ws[i] == rest[k + i];
    assert forall i :: 0 <= i < d ==> m.size[i] == rest[k + w + 1 + i];
  }

  lemma ShapeAtPieces(rest: string, k: nat, m: FileMatch)
    requires k <= |rest| && ShapeAt(rest, k).Some? && m == SplitAt(rest, k)
    ensures rest == m.name + m.ws + "(" + m.size + ")" + m.tail
  {
    var (w, d) := ShapeAt(rest, k).value;
    assert rest[k + w] == '(' && rest[k + w + 1 + d] == ')';
    Rebuild(rest, k, k + w, k + w + 1 + d);
  }

  /** Cutting a line around a `(` at `b` and a `)` at `e` and gluing the
      pieces back gives the line. */
  lemma Rebuild(rest: string, a: nat, b: nat, e: nat)
    requires a <= b < e < |rest| && rest[b] == '(' && rest[e] == ')'
    ensures rest == rest[..a] + rest[a..b] + "(" + rest[b + 1..e] + ")" + rest[e + 1..]
  {
    assert rest[..b] == rest[..a] + rest[a..b];
    assert rest[..b + 1] == rest[..b] + "(";
    assert rest[..e] == rest[..b + 1] + rest[b + 1..e];
    assert rest[..e + 1] == rest[..e] + ")";
    assert rest == rest[..e + 1] + rest[e + 1..];
  }

  lemma ShapeAtComplete(rest: string, name: string, ws: string, size: string, tail: string)
    requires IsSplit(rest, name, ws, size, tail)
    ensures ShapeAt(rest, |name|) == Some((|ws|, |size|))
  {
    var k := |name|;
    assert forall i :: 0 <= i < |ws| ==> rest[k + i] == ws[i];
    assert rest[k + |ws|] == '(';
    var w := Span(rest, k, IsSpace);
    assert w == |ws|;
    var j := k + |ws| + 1;
    assert forall i :: 0 <= i < |size| ==> rest[j + i] == size[i];
    assert rest[j + |size|] == ')';
    var d := Span(rest, j, IsDigit);
    assert d == |size|;
  }

  /** The first index from `k` on where `ShapeAt` succeeds. */
  function FindFrom(rest: string, k: nat): (r: Option<nat>)
    requires k <= |rest|
    ensures r.Some? ==> k <= r.value <= |rest| && ShapeAt(rest, r.value).Some?
    ensures r.Some? ==> forall j :: k <= j < r.value ==> ShapeAt(rest, j).None?
    ensures r.None? ==> forall j :: k <= j <= |rest| ==> ShapeAt(rest, j).None?
    decreases |rest| - k
  {
    if ShapeAt(rest, k).Some? then Some(k)
    else if k == |rest| then None
    else FindFrom(rest, k + 1)
  }

  function MatchFile(line: string): Option<FileMatch> {
    if !StartsWith(line, "File: ") then None
    else
      var rest := line[6..];
      match FindFrom(rest, 0)
      case None => None
      case Some(k) => Some(SplitAt(rest, k))
  }

  /** Two splits whose filenames have the same length are the same split. */
  lemma SplitUnique(rest: string, n1: string, w1: string, s1: string, t1: string,
                    n2: string, w2: string, s2: string, t2: string)
    requires IsSplit(rest, n1, w1, s1, t1) && IsSplit(rest, n2, w2, s2, t2)
    requires |n1| == |n2|
    ensures n1 == n2 && w1 == w2 && s1 == s2 && t1 == t2
  {
    ShapeAtComplete(rest, n1, w1, s1, t1);
    ShapeAtComplete(rest, n2, w2, s2, t2);
    SplitPieces(rest, n1, w1, s1, t1);
    SplitPieces(rest, n2, w2, s2, t2);
  }

  lemma SplitPieces(rest: string, n: string, w: string, s: string, t: string)
    requires IsSplit(rest, n, w, s, t)
    ensures n == rest[..|n|]
    ensures w == rest[|n|..|n| + |w|]
    ensures s == rest[|n| + |w| + 1..|n| + |w| + 1 + |s|]
    ensures t == rest[|n| + |w| + 2 + |s|..]
  {
    var a := n + w;
    var b := a + "(";
    var c := b + s;
    var e := c + ")";
    assert rest == e + t;
    assert rest[..|e|] == e && e[..|c|] == c && c[..|b|] == b && b[..|a|] == a;
    assert a[..|n|] == n && a[|n|..] == w && c[|b|..] == s;
  }

  /** The file matcher is the non-greedy regex: it succeeds exactly on the
      shortest split of the line, and fails exactly when the line has none. */
  lemma MatchFileIff(line: string, m: FileMatch)
    ensures MatchFile(line) == Some(m) <==> IsShortestFileSplit(line, m)
  {
    if MatchFile(line) == Some(m) {
      MatchFileSome(line);
    }
    if IsShortestFileSplit(line, m) {
      ShortestIsMatched(line, m);
    }
  }

  lemma ShortestIsMatched(line: string, m: FileMatch)
    requires IsShortestFileSplit(line, m)
    ensures MatchFile(line) == Some(m)
  {
    var rest := line[6..];
    ShapeAtComplete(rest, m.name, m.ws, m.size, m.tail);
    var k := FindFrom(rest, 0).value;
    var found := SplitAt(rest, k);
    ShapeAtSound(rest, k);
    assert IsFileSplit(line, found.name, found.ws, found.size, found.tail);
    SplitUnique(rest, found.name, found.ws, found.size, found.tail, m.name, m.ws, m.size, m.tail);
  }

  /** The split `ShapeAt` finds at `k`. */
  function SplitAt(rest: string, k: nat): (m: FileMatch)
    requires k <= |rest| && ShapeAt(rest, k).Some?
    ensures |m.name| == k
  {
    var (w, d) := ShapeAt(rest, k).value;
    FileMatch(rest[..k], rest[k..k + w], rest[k + w + 1..k + w + 1 + d], rest[k + w + 2 + d..])
  }

  lemma MatchFileSome(line: string)
    requires MatchFile(line).Some?
    ensures IsShortestFileSplit(line, MatchFile(line).value)
  {
    var rest := line[6..];
    var m := MatchFile(line).value;
    var k := FindFrom(rest, 0).value;
    ShapeAtSound(rest, k);
    assert |m.name| == k;
    forall n, w, s, t | IsFileSplit(line, n, w, s, t)
      ensures |m.name| <= |n|
    {
      ShapeAtComplete(rest, n, w, s, t);
    }
  }

  lemma MatchFileNone(line: string)
    ensures MatchFile(line).None? <==> forall n, w, s, t :: !IsFileSplit(line, n, w, s, t)
  {
    if MatchFile(line).Some? {
      MatchFileSome(line);
    } else {
      forall n, w, s, t | IsFileSplit(line, n, w, s, t)
        ensures false
      {
        ShapeAtComplete(line[6..], n, w, s, t);
      }
    }
  }

  /** A filename without whitespace is captured whole: no shorter capture can
      be followed by a whitespace run. */
  lemma MatchFileWholeName(line: string, name: string, ws: string, size: string, tail: string)
    requires IsFileSplit(line, name, ws, size, tail) && NoSpace(name)
    ensures MatchFile(line) == Some(FileMatch(name, ws, size, tail))
  {
    var rest := line[6..];
    forall n, w, s, t | IsFileSplit(line, n, w, s, t)
      ensures |name| <= |n|
    {
      SplitPieces(rest, name, ws, size, tail);
      SplitPieces(rest, n, w, s, t);
      assert forall i :: 0 <= i < |name| ==> rest[i] == name[i] && !IsSpace(rest[i]);
      assert rest[|n|] == w[0] && IsSpace(rest[|n|]);
    }
    MatchFileIff(line, FileMatch(name, ws, size, tail));
  }

  /** What the `case` in `LogColorizer#run` selects for a line. */
  datatype LineKind = Field(field: FieldMatch) | File(file: FileMatch) | Other

  /** The patterns are tried in order, field lines first. */
  function Classify(line: string): LineKind {
    match MatchField(line)
    case Some(f) => Field(f)
    case None =>
      match MatchFile(line)
      case Some(m) => File(m)
      case None => Other
  }

  /** The two patterns never both match, so their order does not matter. */
  lemma PatternsExclusive(line: string)
    ensures MatchField(line).Some? ==> MatchFile(line).None?
  {
    if MatchField(line).Some? {
      assert line[1] == line[..4][1] != 'i';
      assert !StartsWith(line, "File: ");
    }
  }
}
