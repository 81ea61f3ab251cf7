/** The transform on concrete log lines and on a short stream. */
module Scenarios {
  import opened Text
  import opened Palette
  import opened Rules
  import opened Matchers
  import opened LogColorizer

  /** A line with no whitespace at either end is its own stripped form. */
  lemma AlreadyStripped(raw: string)
    requires |raw| > 0 && !IsSpace(raw[0]) && !IsSpace(raw[|raw| - 1])
    ensures Strip(raw) == raw
  {
    assert [] + raw + [] == raw;
    StripUnique([], raw, []);
  }

  /** A date line gets its value painted light green. */
  lemma DateLine(raw: string)
    requires raw == "Date: 2021-05-01"
    ensures Colorize(raw) == "Date: \U{1B}[1;32m2021-05-01\U{1B}[0m"
  {
    AlreadyStripped(raw);
    assert IsFieldLine(raw, Date, "2021-05-01");
    FieldLineOutput(raw, Date, "2021-05-01");
    DateText(Colorize(raw));
  }

  lemma DateText(out: string)
    requires out == "Date: " + PALETTE["light_green"] + "2021-05-01" + RESET
    ensures out == "Date: \U{1B}[1;32m2021-05-01\U{1B}[0m"
  {
  }

  /** A line that is neither a field line nor a file line passes through. */
  lemma GarbageLine(raw: string)
    requires raw == "garbage line"
    ensures Colorize(raw) == "garbage line"
  {
    AlreadyStripped(raw);
    forall l, v
      ensures !IsFieldLine(raw, l, v)
    {
      assert raw[0] == 'g' != LabelText(l)[0];
    }
    assert !StartsWith(raw, "File: ") by {
      assert raw[0] == 'g';
    }
    PassThrough(DEFAULT, raw);
  }

  /** A file line under the maildir with "spam" in its name: the name loses
      the maildir prefix and is painted yellow, the whitespace grows by the
      16 characters removed, and the size is painted light blue. */
  lemma SpamFileLine(raw: string)
    requires raw == "File: /home/pabs/mail/spam/x  (10)"
    ensures Colorize(raw)
            == "File: \U{1B}[1;33mspam/x\U{1B}[0m                  \U{1B}[1;34m(10)\U{1B}[0m"
  {
    var m := FileMatch("/home/pabs/mail/spam/x", "  ", "10", "");
    AlreadyStripped(raw);
    SpamSplit(raw, m);
    SpamName(m.name);
    FileLineOutput(raw, m);
    SpamText(Colorize(raw), m.name[|MAILDIR|..]);
  }

  lemma SpamSplit(line: string, m: FileMatch)
    requires line == "File: /home/pabs/mail/spam/x  (10)"
    requires m == FileMatch("/home/pabs/mail/spam/x", "  ", "10", "")
    ensures IsShortestFileSplit(line, m)
  {
    SpamPieces(line, m.name, m.ws, m.size, m.tail);
    SpamNameNoSpace(m.name);
    MatchFileWholeName(line, m.name, m.ws, m.size, m.tail);
    MatchFileIff(line, m);
  }

  lemma SpamPieces(line: string, name: string, ws: string, size: string, tail: string)
    requires line == "File: /home/pabs/mail/spam/x  (10)"
    requires name == "/home/pabs/mail/spam/x" && ws == "  " && size == "10" && tail == ""
    ensures IsFileSplit(line, name, ws, size, tail)
  {
    assert line[..6] == "File: ";
    assert line[6..] == name + ws + "(" + size + ")" + tail;
  }

  lemma SpamNameNoSpace(name: string)
    requires name == "/home/pabs/mail/spam/x"
    ensures NoSpace(name)
  {
    forall i | 0 <= i < |name|
      ensures !IsSpace(name[i])
    {
    }
  }

  lemma SpamName(name: string)
    requires name == "/home/pabs/mail/spam/x"
    ensures StartsWith(name, MAILDIR) && Contains(name, "spam")
    ensures name[|MAILDIR|..] == "spam/x"
  {
    assert OccursAt(name, "spam", 16);
    ContainsIff(name, "spam");
  }

  lemma SpamText(out: string, name: string)
    requires name == "spam/x"
    requires out == "File: " + PALETTE["yellow"] + name + RESET + "  " + Spaces(|MAILDIR|)
                    + PALETTE["light_blue"] + "(" + "10" + ")" + RESET
    ensures out == "File: \U{1B}[1;33mspam/x\U{1B}[0m                  \U{1B}[1;34m(10)\U{1B}[0m"
  {
    var painted := "File: " + PALETTE["yellow"] + name + RESET;
    var padded := painted + "  " + Spaces(|MAILDIR|);
    SpamPadded(painted, padded, name);
    SpamJoin(out, padded);
  }

  lemma SpamPadded(painted: string, padded: string, name: string)
    requires name == "spam/x"
    requires painted == "File: " + PALETTE["yellow"] + name + RESET
    requires padded == painted + "  " + Spaces(|MAILDIR|)
    ensures padded == "File: \U{1B}[1;33mspam/x\U{1B}[0m                  "
  {
    assert painted == "File: \U{1B}[1;33mspam/x\U{1B}[0m";
    assert Spaces(|MAILDIR|) == "                ";
  }

  lemma SpamJoin(out: string, padded: string)
    requires padded == "File: \U{1B}[1;33mspam/x\U{1B}[0m                  "
    requires out == padded + PALETTE["light_blue"] + "(" + "10" + ")" + RESET
    ensures out == "File: \U{1B}[1;33mspam/x\U{1B}[0m                  \U{1B}[1;34m(10)\U{1B}[0m"
  {
    assert PALETTE["light_blue"] + "(" + "10" + ")" + RESET == "\U{1B}[1;34m(10)\U{1B}[0m";
    ConcatAssoc(padded + PALETTE["light_blue"] + "(" + "10", ")", RESET);
  }

  /** Three lines in a row: a date line, an unrecognised line and a file
      line each come out as their own scenario says, in order. */
  lemma ThreeLineStream(lines: seq<string>)
    requires lines == ["Date: 2021-05-01", "garbage line", "File: /home/pabs/mail/spam/x  (10)"]
    ensures ColorizeStream(lines)
            == ["Date: \U{1B}[1;32m2021-05-01\U{1B}[0m",
                "garbage line",
                "File: \U{1B}[1;33mspam/x\U{1B}[0m                  \U{1B}[1;34m(10)\U{1B}[0m"]
  {
    DateLine(lines[0]);
    GarbageLine(lines[1]);
    SpamFileLine(lines[2]);
  }
}
