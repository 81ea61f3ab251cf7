/** The compiled-in table of ANSI SGR escapes, `ESC [ attr ; code m`,
    keyed by colour name. Only the identity of each escape matters here. */
module Palette {
  import opened Wrappers
  import opened Text

  const ESC: char := '\U{1B}'

  const PALETTE: map<string, string> := map[
    "black"        := "\U{1B}[0;30m",
    "blue"         := "\U{1B}[0;34m",
    "green"        := "\U{1B}[0;32m",
    "cyan"         := "\U{1B}[0;36m",
    "red"          := "\U{1B}[0;31m",
    "purple"       := "\U{1B}[0;35m",
    "brown"        := "\U{1B}[0;33m",
    "light_grey"   := "\U{1B}[0;37m",
    "dark_grey"    := "\U{1B}[1;30m",
    "light_blue"   := "\U{1B}[1;34m",
    "light_green"  := "\U{1B}[1;32m",
    "light_cyan"   := "\U{1B}[1;36m",
    "light_red"    := "\U{1B}[1;31m",
    "light_purple" := "\U{1B}[1;35m",
    "yellow"       := "\U{1B}[1;33m",
    "white"        := "\U{1B}[1;37m",
    "nothing"      := "\U{1B}[0m"
  ]

  /** The reset escape, `PALETTE['nothing']`. */
  const RESET: string := "\U{1B}[0m"

  /** `PALETTE[c || 'nothing']` as `%s` formats it: no colour selects the
      reset escape, and a name missing from the palette formats as nothing. */
  function Escape(c: Option<string>): (r: string)
    ensures c.None? ==> r == RESET
    ensures c.Some? && c.value in PALETTE ==> r == PALETTE[c.value]
    ensures c.Some? && c.value !in PALETTE ==> r == []
  {
    var name := c.GetOr("nothing");
    if name in PALETTE then PALETTE[name] else []
  }

  /** Every palette entry is a well-formed SGR escape: ESC, '[', a
      non-empty list of digits and ';' separators, then 'm' last. */
  lemma PaletteIsSgr(name: string)
    requires name in PALETTE
    ensures |PALETTE[name]| >= 4
    ensures PALETTE[name][0] == ESC && PALETTE[name][1] == '['
    ensures forall i :: 2 <= i < |PALETTE[name]| - 1 ==> IsDigit(PALETTE[name][i]) || PALETTE[name][i] == ';'
    ensures PALETTE[name][|PALETTE[name]| - 1] == 'm'
  {
  }

  /** The colours the default rules use all have distinct escapes, and none
      of them is the reset escape. */
  lemma RuleColoursDistinct()
    ensures PALETTE["nothing"] == RESET
    ensures PALETTE["yellow"] != PALETTE["white"]
    ensures forall a, b :: a in RULE_COLOURS && b in RULE_COLOURS && a != b ==> PALETTE[a] != PALETTE[b]
    ensures forall a :: a in RULE_COLOURS ==> PALETTE[a] != RESET
  {
  }

  const RULE_COLOURS: set<string> := {"light_green", "cyan", "light_cyan", "light_blue", "yellow", "white"}
}
