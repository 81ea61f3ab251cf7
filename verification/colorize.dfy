/** The per-line transform of `LogColorizer#run`: strip the line, classify
    it, and re-emit recognised lines with their fields wrapped in escapes. */
module LogColorizer {
  import opened Wrappers
  import opened Text
  import opened Palette
  import opened Rules
  import opened Matchers

  /** `value` between the escape for `c` and the reset escape. */
  function Paint(c: Option<string>, value: string): string {
    Escape(c) + value + RESET
  }

  /** A `Date`/`From`/`Subj` line: the colour is chosen from the value as
      captured, then the key's strip rule (if any) is applied to it. */
  function RenderField(cfg: Config, f: FieldMatch): string {
    var key := Key(f.tag);
    LabelText(f.tag) + ": " + Paint(ColorFor(cfg, key, f.value), StripFor(cfg, key, f.value))
  }

  /** The filename and whitespace as displayed. When a `file` strip rule
      shortens the filename, the whitespace grows by as many spaces as the
      filename lost, so the `(` that follows stays in the same column. */
  function FileColumns(cfg: Config, m: FileMatch): (r: (string, string))
    ensures r.0 == StripFor(cfg, "file", m.name)
    ensures |r.0| + |r.1| == |m.name| + |m.ws|
    ensures r.1 == m.ws + Spaces(|m.name| - |r.0|)
  {
    StripForShortens(cfg, "file", m.name);
    if "file" in cfg.strip then
      var name := ApplyStrip(cfg.strip["file"], m.name);
      (name, if |m.name| > |name| then m.ws + Spaces(|m.name| - |name|) else m.ws)
    else
      (m.name, m.ws)
  }

  /** A `File` line: both colours are chosen from the values as captured,
      before any stripping, and whatever followed `)` is dropped. */
  function RenderFile(cfg: Config, m: FileMatch): string {
    var fileColor := ColorFor(cfg, "file", m.name);
    var sizeColor := ColorFor(cfg, "size", m.size);
    var (name, ws) := FileColumns(cfg, m);
    "File: " + Paint(fileColor, name) + ws + Escape(sizeColor) + "(" + StripFor(cfg, "size", m.size) + ")" + RESET
  }

  /** The `case` in `run`, on a line already stripped. */
  function Recolor(cfg: Config, line: string): string {
    match Classify(line)
    case Field(f) => RenderField(cfg, f)
    case File(m) => RenderFile(cfg, m)
    case Other => line
  }

  /** One iteration of the loop in `run`, under the rule tables `cfg`. */
  function Transform(cfg: Config, raw: string): string {
    Recolor(cfg, Strip(raw))
  }

  /** The transform under the compiled-in `CONFIG`. */
  function Colorize(raw: string): string {
    Transform(DEFAULT, raw)
  }

  /** The stream, line by line: one output line per input line, in order. */
  function ColorizeStream(lines: seq<string>): (out: seq<string>)
    ensures |out| == |lines|
    ensures forall i :: 0 <= i < |lines| ==> out[i] == Colorize(lines[i])
  {
    if |lines| == 0 then [] else [Colorize(lines[0])] + ColorizeStream(lines[1..])
  }

  /** A line matching neither pattern comes out stripped and otherwise
      unchanged, whatever the rule tables. */
  lemma PassThrough(cfg: Config, raw: string)
    requires forall l, v :: !IsFieldLine(Strip(raw), l, v)
    requires forall n, w, s, t :: !IsFileSplit(Strip(raw), n, w, s, t)
    ensures Transform(cfg, raw) == Strip(raw)
  {
    var line := Strip(raw);
    if MatchField(line).Some? {
      var f := MatchField(line).value;
      MatchFieldIff(line, f.tag, f.value);
    }
    MatchFileNone(line);
  }

  /** A field line keeps its label as written, then `": "`, then the value
      (stripped by the key's rule, if any) between the key's colour escape
      and the reset escape. */
  lemma FieldLineTransform(cfg: Config, raw: string, l: Label, v: string)
    requires IsFieldLine(Strip(raw), l, v)
    ensures Transform(cfg, raw)
            == LabelText(l) + ": " + Escape(ColorFor(cfg, Key(l), v)) + StripFor(cfg, Key(l), v) + RESET
  {
    RecolorField(cfg, Strip(raw), l, v);
    RenderFieldShape(cfg, l, v);
  }

  lemma RecolorField(cfg: Config, line: string, l: Label, v: string)
    requires IsFieldLine(line, l, v)
    ensures Recolor(cfg, line) == RenderField(cfg, FieldMatch(l, v))
  {
    MatchFieldIff(line, l, v);
  }

  lemma RenderFieldShape(cfg: Config, l: Label, v: string)
    ensures RenderField(cfg, FieldMatch(l, v))
            == LabelText(l) + ": " + Escape(ColorFor(cfg, Key(l), v)) + StripFor(cfg, Key(l), v) + RESET
  {
    var a, e, b := LabelText(l) + ": ", Escape(ColorFor(cfg, Key(l), v)), StripFor(cfg, Key(l), v);
    assert a + (e + b + RESET) == a + e + b + RESET;
  }

  /** Under the compiled-in rules each label has a fixed colour and the value
      is emitted unstripped. */
  lemma FieldLineOutput(raw: string, l: Label, v: string)
    requires IsFieldLine(Strip(raw), l, v)
    ensures l == Date ==> Colorize(raw) == "Date: " + PALETTE["light_green"] + v + RESET
    ensures l == From ==> Colorize(raw) == "From: " + PALETTE["cyan"] + v + RESET
    ensures l == Subj ==> Colorize(raw) == "Subj: " + PALETTE["light_cyan"] + v + RESET
  {
    FieldLineTransform(DEFAULT, raw, l, v);
    DefaultFieldText(Colorize(raw), l, v);
  }

  /** What a field line renders to under the compiled-in rules. */
  lemma DefaultFieldText(out: string, l: Label, v: string)
    requires out == LabelText(l) + ": " + Escape(ColorFor(DEFAULT, Key(l), v)) + StripFor(DEFAULT, Key(l), v) + RESET
    ensures l == Date ==> out == "Date: " + PALETTE["light_green"] + v + RESET
    ensures l == From ==> out == "From: " + PALETTE["cyan"] + v + RESET
    ensures l == Subj ==> out == "Subj: " + PALETTE["light_cyan"] + v + RESET
  {
    DefaultFieldParts(l, v);
  }

  lemma DefaultFieldParts(l: Label, v: string)
    ensures StripFor(DEFAULT, Key(l), v) == v
    ensures l == Date ==> LabelText(l) + ": " == "Date: " && Escape(ColorFor(DEFAULT, Key(l), v)) == PALETTE["light_green"]
    ensures l == From ==> LabelText(l) + ": " == "From: " && Escape(ColorFor(DEFAULT, Key(l), v)) == PALETTE["cyan"]
    ensures l == Subj ==> LabelText(l) + ": " == "Subj: " && Escape(ColorFor(DEFAULT, Key(l), v)) == PALETTE["light_cyan"]
  {
    KeyOfLabel();
    DefaultDirectColours(v);
    DefaultStrip(Key(l), v);
  }

  /** A file line is rebuilt from the shortest split of the stripped line:
      `File: `, the painted filename, the padded whitespace, then the
      painted `(size)`; the text after `)` is dropped. */
  lemma FileLineTransform(cfg: Config, raw: string, m: FileMatch)
    requires IsShortestFileSplit(Strip(raw), m)
    ensures Transform(cfg, raw)
            == "File: " + Escape(ColorFor(cfg, "file", m.name)) + StripFor(cfg, "file", m.name) + RESET
               + m.ws + Spaces(|m.name| - |StripFor(cfg, "file", m.name)|)
               + Escape(ColorFor(cfg, "size", m.size)) + "(" + StripFor(cfg, "size", m.size) + ")" + RESET
  {
    RecolorFile(cfg, Strip(raw), m);
    RenderFileShape(cfg, m);
  }

  lemma RecolorFile(cfg: Config, line: string, m: FileMatch)
    requires IsShortestFileSplit(line, m)
    ensures Recolor(cfg, line) == RenderFile(cfg, m)
  {
    PatternsExclusive(line);
    MatchFileIff(line, m);
  }

  lemma RenderFileShape(cfg: Config, m: FileMatch)
    ensures RenderFile(cfg, m)
            == "File: " + Escape(ColorFor(cfg, "file", m.name)) + StripFor(cfg, "file", m.name) + RESET
               + m.ws + Spaces(|m.name| - |StripFor(cfg, "file", m.name)|)
               + Escape(ColorFor(cfg, "size", m.size)) + "(" + StripFor(cfg, "size", m.size) + ")" + RESET
  {
    var (name, ws) := FileColumns(cfg, m);
    var e1, e2 := Escape(ColorFor(cfg, "file", m.name)), Escape(ColorFor(cfg, "size", m.size));
    var head := "File: " + e1 + name + RESET;
    ConcatAssoc("File: ", e1 + name, RESET);
    ConcatAssoc("File: ", e1, name);
    assert RenderFile(cfg, m) == head + ws + e2 + "(" + StripFor(cfg, "size", m.size) + ")" + RESET;
    ConcatAssoc(head, m.ws, Spaces(|m.name| - |name|));
    assert head + ws == head + m.ws + Spaces(|m.name| - |name|);
  }

  /** Under the compiled-in rules: the filename is yellow when the unstripped
      name contains "spam" and white otherwise, it loses a leading
      `/home/pabs/mail/` with the whitespace growing by the same 16 columns,
      and the size is light blue. */
  lemma FileLineOutput(raw: string, m: FileMatch)
    requires IsShortestFileSplit(Strip(raw), m)
    ensures var fileEsc := PALETTE[if Contains(m.name, "spam") then "yellow" else "white"];
            var sizeEsc := PALETTE["light_blue"];
            && (StartsWith(m.name, MAILDIR) ==>
                  Colorize(raw) == "File: " + fileEsc + m.name[|MAILDIR|..] + RESET + m.ws + Spaces(|MAILDIR|)
                                   + sizeEsc + "(" + m.size + ")" + RESET)
            && (!StartsWith(m.name, MAILDIR) ==>
                  Colorize(raw) == "File: " + fileEsc + m.name + RESET + m.ws
                                   + sizeEsc + "(" + m.size + ")" + RESET)
  {
    FileLineTransform(DEFAULT, raw, m);
    DefaultFileText(Colorize(raw), m);
  }

  /** What a file line renders to under the compiled-in rules. */
  lemma DefaultFileText(out: string, m: FileMatch)
    requires out == "File: " + Escape(ColorFor(DEFAULT, "file", m.name)) + StripFor(DEFAULT, "file", m.name) + RESET
                    + m.ws + Spaces(|m.name| - |StripFor(DEFAULT, "file", m.name)|)
                    + Escape(ColorFor(DEFAULT, "size", m.size)) + "(" + StripFor(DEFAULT, "size", m.size) + ")" + RESET
    ensures var fileEsc := PALETTE[if Contains(m.name, "spam") then "yellow" else "white"];
            var sizeEsc := PALETTE["light_blue"];
            && (StartsWith(m.name, MAILDIR) ==>
                  out == "File: " + fileEsc + m.name[|MAILDIR|..] + RESET + m.ws + Spaces(|MAILDIR|)
                         + sizeEsc + "(" + m.size + ")" + RESET)
            && (!StartsWith(m.name, MAILDIR) ==>
                  out == "File: " + fileEsc + m.name + RESET + m.ws
                         + sizeEsc + "(" + m.size + ")" + RESET)
  {
    DefaultFileEscapes(m.name, m.size);
    DefaultStrip("size", m.size);
    DefaultStrip("file", m.name);
    if StartsWith(m.name, MAILDIR) {
      assert |StripFor(DEFAULT, "file", m.name)| == |m.name| - |MAILDIR|;
      assert StripFor(DEFAULT, "file", m.name) == m.name[|MAILDIR|..];
    } else {
      assert m.ws + Spaces(0) == m.ws;
    }
  }

  lemma DefaultFileEscapes(name: string, size: string)
    ensures Escape(ColorFor(DEFAULT, "file", name)) == PALETTE[if Contains(name, "spam") then "yellow" else "white"]
    ensures Escape(ColorFor(DEFAULT, "size", size)) == PALETTE["light_blue"]
  {
    DefaultFileColour(name);
    DefaultDirectColours(size);
  }

  /** Recolouring adds at most two colour escapes and two resets to the
      stripped line: stripping the filename is paid back by padding, and the
      dropped tail only shortens it. */
  lemma TransformLength(cfg: Config, raw: string)
    ensures |Transform(cfg, raw)| <= |Strip(raw)| + 22
  {
    var line := Strip(raw);
    var kind := Classify(line);
    if kind.Field? {
      FieldCaseLength(cfg, line, kind.field);
    } else if kind.File? {
      FileCaseLength(cfg, line, kind.file);
    }
  }

  lemma FieldCaseLength(cfg: Config, line: string, f: FieldMatch)
    requires Classify(line) == Field(f)
    ensures |Recolor(cfg, line)| <= |line| + 22
  {
    MatchFieldIff(line, f.tag, f.value);
    RenderFieldShape(cfg, f.tag, f.value);
    FieldLength(cfg, RenderField(cfg, f), line, f.tag, f.value);
  }

  lemma FileCaseLength(cfg: Config, line: string, m: FileMatch)
    requires Classify(line) == File(m)
    ensures |Recolor(cfg, line)| <= |line| + 22
  {
    MatchFileIff(line, m);
    RenderFileShape(cfg, m);
    FileLength(cfg, RenderFile(cfg, m), line, m);
  }

  lemma EscapeLength(c: Option<string>)
    ensures |Escape(c)| <= 7 && |RESET| == 4
  {
  }

  lemma FieldLength(cfg: Config, out: string, line: string, l: Label, v: string)
    requires IsFieldLine(line, l, v)
    requires out == LabelText(l) + ": " + Escape(ColorFor(cfg, Key(l), v)) + StripFor(cfg, Key(l), v) + RESET
    ensures |out| <= |line| + 11
  {
    EscapeLength(ColorFor(cfg, Key(l), v));
    StripForShortens(cfg, Key(l), v);
  }

  lemma FileLength(cfg: Config, out: string, line: string, m: FileMatch)
    requires IsShortestFileSplit(line, m)
    requires out == "File: " + Escape(ColorFor(cfg, "file", m.name)) + StripFor(cfg, "file", m.name) + RESET
                    + m.ws + Spaces(|m.name| - |StripFor(cfg, "file", m.name)|)
                    + Escape(ColorFor(cfg, "size", m.size)) + "(" + StripFor(cfg, "size", m.size) + ")" + RESET
    ensures |out| <= |line| + 22
  {
    EscapeLength(ColorFor(cfg, "file", m.name));
    EscapeLength(ColorFor(cfg, "size", m.size));
    StripForShortens(cfg, "file", m.name);
    StripForShortens(cfg, "size", m.size);
  }
}
