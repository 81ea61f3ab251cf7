/** The field-rule and strip-rule tables (`CONFIG`) and `color_for`. */
module Rules {
  import opened Wrappers
  import opened Text

  /** A colour-rule pattern: an unanchored literal regex such as `/spam/`. */
  datatype Pattern = Literal(needle: string)

  predicate Matches(p: Pattern, value: string) {
    Contains(value, p.needle)
  }

  /** One entry of an ordered rule: an optional pattern and the colour it selects. */
  datatype Entry = Entry(pattern: Option<Pattern>, color: string)

  /** A field's colour rule: a plain colour name, or entries tried in order. */
  datatype ColorRule = Direct(color: string) | Ordered(entries: seq<Entry>)

  /** A per-field value transform; `DropLeading(p)` is `gsub(/^p/, '')` on a
      value without line breaks, which removes `p` once, at the start only. */
  datatype StripRule = DropLeading(prefix: string)

  datatype Config = Config(colors: map<string, ColorRule>, strip: map<string, StripRule>)

  /** An entry applies when it has no pattern or its pattern matches. */
  predicate Applies(e: Entry, value: string) {
    e.pattern.None? || Matches(e.pattern.value, value)
  }

  /** Index `i` holds the first entry that applies to `value`. */
  predicate IsFirstApplicable(entries: seq<Entry>, value: string, i: int) {
    && 0 <= i < |entries|
    && Applies(entries[i], value)
    && forall j :: 0 <= j < i ==> !Applies(entries[j], value)
  }

  /** `Array#find` over the entries: the index of the first one that applies. */
  function FindApplicable(entries: seq<Entry>, value: string): (r: Option<nat>)
    ensures r.Some? ==> IsFirstApplicable(entries, value, r.value)
    ensures r.None? ==> forall j :: 0 <= j < |entries| ==> !Applies(entries[j], value)
  {
    if |entries| == 0 then None
    else if Applies(entries[0], value) then Some(0)
    else match FindApplicable(entries[1..], value)
      case Some(i) => Some(i + 1)
      case None => None
  }

  /** `color_for(key, value)`: the key's colour rule resolved against `value`;
      `None` stands for Ruby's `nil`. */
  function ColorFor(cfg: Config, key: string, value: string): Option<string> {
    if key !in cfg.colors then None
    else match cfg.colors[key]
      case Direct(c) => Some(c)
      case Ordered(entries) =>
        match FindApplicable(entries, value)
        case Some(i) => Some(entries[i].color)
        case None => None
  }

  /** First match wins: for an ordered rule the colour is that of the first
      entry that applies, and there is none exactly when no entry applies. A
      plain colour is returned whatever the value, and a key with no rule
      has no colour. */
  lemma ColorForSpec(cfg: Config, key: string, value: string)
    ensures key !in cfg.colors ==> ColorFor(cfg, key, value).None?
    ensures key in cfg.colors && cfg.colors[key].Direct? ==>
              ColorFor(cfg, key, value) == Some(cfg.colors[key].color)
    ensures key in cfg.colors && cfg.colors[key].Ordered? ==>
              forall c :: ColorFor(cfg, key, value) == Some(c) <==>
                exists i :: IsFirstApplicable(cfg.colors[key].entries, value, i)
                            && cfg.colors[key].entries[i].color == c
    ensures key in cfg.colors && cfg.colors[key].Ordered? ==>
              (ColorFor(cfg, key, value).None? <==>
                forall j :: 0 <= j < |cfg.colors[key].entries| ==>
                  !Applies(cfg.colors[key].entries[j], value))
  {
    if key in cfg.colors && cfg.colors[key].Ordered? {
      var es := cfg.colors[key].entries;
      var found := FindApplicable(es, value);
      forall c
        ensures ColorFor(cfg, key, value) == Some(c) <==>
                exists i :: IsFirstApplicable(es, value, i) && es[i].color == c
      {
        if exists i :: IsFirstApplicable(es, value, i) && es[i].color == c {
          var i :| IsFirstApplicable(es, value, i) && es[i].color == c;
          FirstApplicableUnique(es, value, i, found.value);
        }
      }
    }
  }

  /** At most one index is the first applicable one. */
  lemma FirstApplicableUnique(entries: seq<Entry>, value: string, i: int, j: int)
    requires IsFirstApplicable(entries, value, i) && IsFirstApplicable(entries, value, j)
    ensures i == j
  {
  }

  /** A strip rule applied to a value: the prefix is removed when the value
      starts with it, and the value is kept as it is otherwise. */
  function ApplyStrip(rule: StripRule, value: string): (r: string)
    ensures StartsWith(value, rule.prefix) ==> rule.prefix + r == value
    ensures !StartsWith(value, rule.prefix) ==> r == value
  {
    if StartsWith(value, rule.prefix) then value[|rule.prefix|..] else value
  }

  /** `CONFIG['strip'][key]`, applied when the key has one. */
  function StripFor(cfg: Config, key: string, value: string): string {
    if key in cfg.strip then ApplyStrip(cfg.strip[key], value) else value
  }

  /** Stripping never lengthens a value: it either keeps it or removes
      exactly the rule's prefix from its front, so what is left is a suffix. */
  lemma StripForShortens(cfg: Config, key: string, value: string)
    ensures |StripFor(cfg, key, value)| <= |value|
    ensures StripFor(cfg, key, value) == value[|value| - |StripFor(cfg, key, value)|..]
    ensures |StripFor(cfg, key, value)| < |value| ==>
              key in cfg.strip && value == cfg.strip[key].prefix + StripFor(cfg, key, value)
  {
    var r := StripFor(cfg, key, value);
    if key in cfg.strip && StartsWith(value, cfg.strip[key].prefix) {
      assert value == cfg.strip[key].prefix + r;
      assert value[|value| - |r|..] == r;
    }
  }

  /** `MAILDIR_REGEX` without its `^` anchor. */
  const MAILDIR: string := "/home/pabs/mail/"

  /** `CONFIG`: the compiled-in colour and strip tables. */
  const DEFAULT: Config := Config(
    map[
      "date" := Direct("light_green"),
      "from" := Direct("cyan"),
      "subj" := Direct("light_cyan"),
      "size" := Direct("light_blue"),
      "file" := Ordered([Entry(Some(Literal("spam")), "yellow"), Entry(None, "white")])
    ],
    map["file" := DropLeading(MAILDIR)]
  )

  /** The plain colour fields get their colour whatever the value. */
  lemma DefaultDirectColours(value: string)
    ensures ColorFor(DEFAULT, "date", value) == Some("light_green")
    ensures ColorFor(DEFAULT, "from", value) == Some("cyan")
    ensures ColorFor(DEFAULT, "subj", value) == Some("light_cyan")
    ensures ColorFor(DEFAULT, "size", value) == Some("light_blue")
  {
  }

  /** A filename is yellow exactly when it contains "spam", white otherwise;
      the catch-all entry means it always has a colour. */
  lemma DefaultFileColour(value: string)
    ensures ColorFor(DEFAULT, "file", value) == Some("yellow") <==> Contains(value, "spam")
    ensures ColorFor(DEFAULT, "file", value) == Some("white") <==> !Contains(value, "spam")
  {
    var es := DEFAULT.colors["file"].entries;
    assert Applies(es[1], value);
    if Contains(value, "spam") {
      assert FindApplicable(es, value) == Some(0);
    } else {
      assert FindApplicable(es, value) == Some(1);
    }
  }

  /** Keys outside the table get no colour. */
  lemma DefaultUnknownKey(key: string, value: string)
    requires key !in {"date", "from", "subj", "size", "file"}
    ensures ColorFor(DEFAULT, key, value).None?
  {
  }

  /** Only filenames are stripped, and a filename loses `/home/pabs/mail/`
      exactly when it starts with it. */
  lemma DefaultStrip(key: string, value: string)
    ensures key != "file" ==> StripFor(DEFAULT, key, value) == value
    ensures StartsWith(value, MAILDIR) <==> MAILDIR + StripFor(DEFAULT, "file", value) == value
    ensures !StartsWith(value, MAILDIR) <==> StripFor(DEFAULT, "file", value) == value
  {
    var r := StripFor(DEFAULT, "file", value);
    if MAILDIR + r == value {
      assert value[..|MAILDIR|] == MAILDIR;
    }
    if StartsWith(value, MAILDIR) {
      assert |r| < |value|;
    }
  }
}
