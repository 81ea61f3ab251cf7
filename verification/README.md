# maildrop log colorizer — a Dafny model

This project models the line transform of `Maildrop::LogColorizer`, a filter
that reads a maildrop delivery log line by line and writes each line back with
ANSI colour escapes around its interesting fields. Each line is stripped of
surrounding whitespace and then tested against two patterns, in order:

- `Date: …`, `From: …` and `Subj: …` lines keep their label and get their
  value painted in the colour the field's rule selects.
- `File: <name><whitespace>(<digits>)` lines get the filename and the size
  painted. The filename loses the maildir prefix `/home/pabs/mail/`, and the
  whitespace grows by as many spaces as the name lost, so the `(` stays in its
  column. Anything after the closing `)` is dropped.
- Every other line is written back stripped and otherwise unchanged.

The colour of a field comes from the compiled-in rule table (`CONFIG`). A rule
is either a plain colour name or an ordered list of (optional pattern, colour)
entries, where the first entry that applies wins. Colour names map to fixed
SGR escapes (`PALETTE`).

Layout, one module per concern:

- `wrappers.dfy` (`Wrappers`): `Option`, standing for Ruby's `nil`.
- `text.dfy` (`Text`): `String#strip` over Ruby's `\s` class, literal substring
  and prefix tests, ASCII `downcase`, runs of spaces.
- `palette.dfy` (`Palette`): the escape table and `PALETTE[c || 'nothing']`.
- `rules.dfy` (`Rules`): colour and strip rules, `color_for`, and the
  compiled-in `CONFIG` as `DEFAULT`.
- `matchers.dfy` (`Matchers`): hand-written matchers for the two line
  patterns. Each is proved equal to a declarative description of what the
  regex accepts, including the non-greedy filename capture.
- `colorize.dfy` (`LogColorizer`): one iteration of the loop in `run`, the
  stream as a sequence of lines, and the output lemmas.
- `scenarios.dfy` (`Scenarios`): the transform on three concrete lines and
  on the stream of those three lines.

The transform is parameterised by the rule tables (`Transform(cfg, raw)`),
but only over a narrow rule language. A colour pattern is a literal needle
matched anywhere in the value. A strip rule removes an anchored literal
prefix. The source's tables can hold arbitrary regular expressions and procs.
`Colorize(raw)` fixes the tables to the compiled-in `CONFIG`, which lies
inside this language.

An unrecognised line is emitted *stripped*, not byte for byte. Both ends are
stripped, although the comment in the loop says "trailing"; the model follows
the code.

## Model

| member | source | states |
|---|---|---|
| Text.LeadingSpaces | maildrop-log-colorize.rb:86 | the count of characters `lstrip` removes is the length of the all-space run that opens the line: all of them are whitespace and the next one is not |
| Text.TrailingSpaces | maildrop-log-colorize.rb:86 | the count of characters `rstrip` removes is the length of the all-space run that closes the line: all of them are whitespace and the one before is not |
| Text.StripEnds | maildrop-log-colorize.rb:86 | a stripped line is empty or neither starts nor ends with whitespace |
| Text.StripShape | maildrop-log-colorize.rb:85-86 | a stripped line is an infix of the raw line with all-space text cut from both ends |
| Text.StripUnique | maildrop-log-colorize.rb:85-86 | stripping gives back the same core whatever all-space head and tail surround it |
| Text.StripIdempotent | maildrop-log-colorize.rb:86 | stripping an already stripped line changes nothing |
| Text.StripSingleLine | maildrop-log-colorize.rb:84-86 | a line read by `gets` holds no line feed once stripped, so the `^`/`$` anchors fall at its ends |
| Text.ContainsIff | maildrop-log-colorize.rb:42 | the unanchored literal match holds exactly when the needle occurs at some index of the value |
| Rules.FindApplicable | maildrop-log-colorize.rb:152 | `find` yields the index of the first entry that has no pattern or whose pattern matches, and nothing only when no entry applies |
| Rules.ColorForSpec | maildrop-log-colorize.rb:147-159 | `color_for` gives nil for a key with no rule, the colour itself for a plain rule, and for a list the colour of the first applicable entry, nil exactly when none applies |
| Rules.DefaultDirectColours | maildrop-log-colorize.rb:28-38 | date is light_green, from is cyan, subj is light_cyan and size is light_blue, whatever the value |
| Rules.DefaultFileColour | maildrop-log-colorize.rb:40-44 | a filename is yellow exactly when it contains "spam" and white exactly when it does not |
| Rules.DefaultUnknownKey | maildrop-log-colorize.rb:150 | a key outside the colour table has no colour |
| Rules.ApplyStrip | maildrop-log-colorize.rb:24 | removing an anchored prefix: the prefix plus the result rebuild a value that starts with it, and any other value is kept |
| Rules.StripForShortens | maildrop-log-colorize.rb:97-99 | a strip never lengthens a value; the result is a suffix, and a shorter result means the key has a rule whose prefix was removed |
| Rules.DefaultStrip | maildrop-log-colorize.rb:19-25 | only filenames are stripped, and a filename loses `/home/pabs/mail/` exactly when it starts with it |
| Palette.Escape | maildrop-log-colorize.rb:104 | no colour renders as the reset escape, a known colour as its palette entry, an unknown name as nothing |
| Palette.PaletteIsSgr | maildrop-log-colorize.rb:48-66 | every palette entry is an SGR escape: ESC, `[`, a non-empty run of digits and `;`, then `m` |
| Palette.RuleColoursDistinct | maildrop-log-colorize.rb:52-65 | the colours the rules use have pairwise distinct escapes, none equal to the reset escape |
| Matchers.KeyOfLabel | maildrop-log-colorize.rb:93 | downcasing the labels gives the keys date, from and subj |
| Matchers.MatchFieldIff | maildrop-log-colorize.rb:89-90 | the first pattern captures label and value exactly when the line is `<label>: <value>` |
| Matchers.Span | maildrop-log-colorize.rb:108 | a character-class run: every character in it is in the class and the one after it is not |
| Matchers.ShapeAtSound | maildrop-log-colorize.rb:108 | when the tail pattern succeeds at an index, the line splits there into whitespace run, `(`, digit run, `)` and rest |
| Matchers.ShapeAtComplete | maildrop-log-colorize.rb:108 | every such split is found by the tail pattern at the filename's length, with those run lengths |
| Matchers.FindFrom | maildrop-log-colorize.rb:108 | the search returns the first index where the tail pattern succeeds, and nothing only when it succeeds nowhere |
| Matchers.SplitUnique | maildrop-log-colorize.rb:108-109 | two splits with filenames of the same length are the same split |
| Matchers.MatchFileIff | maildrop-log-colorize.rb:108-109 | the second pattern captures name, whitespace and size exactly for the split with the shortest filename (the non-greedy `.*?`) |
| Matchers.MatchFileNone | maildrop-log-colorize.rb:108 | the second pattern fails exactly when the line has no split at all |
| Matchers.MatchFileWholeName | maildrop-log-colorize.rb:108-109 | a filename without whitespace is captured whole |
| Matchers.PatternsExclusive | maildrop-log-colorize.rb:88-108 | no line matches both patterns, so their order in the `case` does not change the result |
| LogColorizer.FileColumns | maildrop-log-colorize.rb:112-119 | the displayed name is the stripped name, the whitespace grows by exactly the characters the name lost (not at all when it lost none), and name plus whitespace keep their total width |
| LogColorizer.ColorizeStream | maildrop-log-colorize.rb:84-142 | one output line per input line, in order, each the transform of its input |
| LogColorizer.PassThrough | maildrop-log-colorize.rb:86-141 | a line matching neither pattern is emitted stripped and otherwise unchanged |
| LogColorizer.FieldLineTransform | maildrop-log-colorize.rb:89-107 | a field line is emitted as its label as written, `": "`, the escape of the colour chosen from the unstripped value, the value after the key's strip rule, and the reset escape |
| LogColorizer.FieldLineOutput | maildrop-log-colorize.rb:89-107 | under the compiled-in rules, Date/From/Subj values are painted light_green/cyan/light_cyan and emitted unstripped |
| LogColorizer.FileLineTransform | maildrop-log-colorize.rb:108-137 | a file line is emitted as `File: `, the painted stripped filename, the padded whitespace and the painted `(size)`, with the text after `)` dropped |
| LogColorizer.FileLineOutput | maildrop-log-colorize.rb:108-137 | under the compiled-in rules the filename colour is decided on the unstripped name (yellow iff it contains "spam"), the maildir prefix goes with the whitespace growing by 16, and the size is light_blue |
| Scenarios.DateLine | maildrop-log-colorize.rb:89-107 | `Date: 2021-05-01` comes out as `Date: `, the light green escape, the date and the reset escape |
| Scenarios.GarbageLine | maildrop-log-colorize.rb:86-141 | `garbage line` comes out unchanged |
| Scenarios.SpamFileLine | maildrop-log-colorize.rb:108-137 | `File: /home/pabs/mail/spam/x  (10)` comes out as `File: `, the yellow escape, `spam/x`, the reset escape, 18 spaces (the 2 captured plus the 16 the prefix took), then the light blue escape, `(10)` and the reset escape |
| Scenarios.ThreeLineStream | maildrop-log-colorize.rb:84-142 | the stream of a date line, `garbage line` and the spam file line gives three output lines in order: the painted date line, `garbage line` unchanged, and the painted file line |
| LogColorizer.TransformLength | maildrop-log-colorize.rb:84-141 | an emitted line is at most the stripped input plus two escapes and two resets long |

## Left out

- Argument handling and input selection (`LogColorizer.run`, `initialize`):
  choosing between `IO.popen("tail -f …")` and standard input is process
  plumbing. The stream is a sequence of lines, mapped one to one.
- The `gets`/`puts` I/O itself, including the newline `puts` appends.
- General Ruby regular expressions. The three concrete patterns are
  hand-written matchers. Lines are taken as free of embedded line feeds,
  which `gets` guarantees (see `Text.StripSingleLine`). Ruby's `^`/`$` would
  also match around an embedded line feed, and `.` would not cross one; that
  behaviour is not modelled.
- The NUL byte that Ruby's `String#strip` also removes; the whitespace set is
  the six characters of `\s`.
- Unicode case mapping of `downcase`: only ASCII letters are lowered, which
  covers the three labels the pattern admits.
- Terminal rendering of the escapes; they are opaque constant strings.
- LogColorizer.ColorizeStream: lines are modelled as sequences of valid
  characters. On a line that is not valid in the stream's encoding, Ruby's
  `strip` and the regex match raise `ArgumentError` and `run` stops there,
  so no later line is written. That abort is not modelled.
- Rules.StripForShortens, LogColorizer.FileColumns and
  LogColorizer.TransformLength: these hold for every rule table of the
  model's language, whose strip rules can only drop a literal prefix. A
  source strip proc that lengthens a value leaves the whitespace unpadded
  and breaks the width and length bounds. Such procs are not modelled.
- Rules.ApplyStrip: models `gsub(MAILDIR_REGEX, '')` only on a line without
  line feeds, where the `^`-anchored prefix can match once, at the start.
