/**
 The text of a migration file: the outer BEGIN and COMMIT, the body between them, and the
 checks for psql commands and transaction control at line starts. In the middle of a line both
 pass, and so do END and ABORT; what such a body can do is the subject of MigrationContainment.
 */
module MigrationText {
  import opened Prelude

  /** str.isspace, and the class \s of a Python pattern. */
  predicate IsSpace(c: char) {
    var n := c as int;
    || 9 <= n <= 13 || 28 <= n <= 32 || n == 0x85 || n == 0xa0 || n == 0x1680
    || 0x2000 <= n <= 0x200a || n == 0x2028 || n == 0x2029 || n == 0x202f || n == 0x205f || n == 0x3000
  }

  /** The line boundaries of str.splitlines. */
  predicate IsLineBreak(c: char) {
    var n := c as int;
    10 <= n <= 13 || 28 <= n <= 30 || n == 0x85 || n == 0x2028 || n == 0x2029
  }

  function LeftStrip(s: string): string {
    if s != "" && IsSpace(s[0]) then LeftStrip(s[1..]) else s
  }

  function RightStrip(s: string): string {
    if s != "" && IsSpace(s[|s| - 1]) then RightStrip(s[..|s| - 1]) else s
  }

  function Strip(s: string): string {
    RightStrip(LeftStrip(s))
  }

  /** str.splitlines: a carriage return and line feed are one break, and a final break ends no extra line. */
  function SplitLines(s: string): seq<string> {
    if s == "" then []
    else if IsLineBreak(s[0]) then
      [""] + SplitLines(if |s| > 1 && s[0] == '\r' && s[1] == '\n' then s[2..] else s[1..])
    else
      var rest := SplitLines(s[1..]);
      if rest == [] then [[s[0]]] else [[s[0]] + rest[0]] + rest[1..]
  }

  function Join(lines: seq<string>): string {
    if lines == [] then "" else if |lines| == 1 then lines[0] else lines[0] + "\n" + Join(lines[1..])
  }

  /** A character up to case, as re.IGNORECASE compares it with an English letter. */
  function Fold(c: char): char {
    if 'A' <= c <= 'Z' then c - 'A' + 'a'
    else if c as int == 0x130 || c as int == 0x131 then 'i'
    else if c as int == 0x17f then 's'
    else if c as int == 0x212a then 'k'
    else c
  }

  predicate StartsWith(s: string, word: string) {
    |word| <= |s| && forall i :: 0 <= i < |word| ==> Fold(s[i]) == word[i]
  }

  /** The word, and then a word boundary; `isWord` is the class \w. */
  predicate StartsWithWord(isWord: char -> bool, s: string, word: string) {
    StartsWith(s, word) && (|s| > |word| ==> !isWord(s[|word|]))
  }

  /** COMMIT, ROLLBACK or START TRANSACTION. */
  predicate StartsWithControl(isWord: char -> bool, s: string) {
    || StartsWithWord(isWord, s, "commit")
    || StartsWithWord(isWord, s, "rollback")
    || (StartsWith(s, "start") && |s| > 5 && IsSpace(s[5])
        && StartsWithWord(isWord, LeftStrip(s[5..]), "transaction"))
  }

  predicate LineStart(s: string, i: nat) {
    i <= |s| && (i == 0 || s[i - 1] == '\n')
  }

  predicate HasControl(isWord: char -> bool, body: string) {
    exists i :: 0 <= i <= |body| && LineStart(body, i) && StartsWithControl(isWord, LeftStrip(body[i..]))
  }

  predicate PsqlCommand(line: string) {
    LeftStrip(line) != "" && LeftStrip(line)[0] == '\\'
  }

  /** The body of an accepted text; every other text is an error. */
  function BodyOf(isWord: char -> bool, text: string): Option<string> {
    var lines := SplitLines(Strip(text));
    if |lines| < 3 || Strip(lines[0]) != "BEGIN;" || Strip(lines[|lines| - 1]) != "COMMIT;" then None
    else if exists i :: 0 <= i < |lines| && PsqlCommand(lines[i]) then None
    else
      var body := Join(lines[1..|lines| - 1]);
      if HasControl(isWord, body) then None else Some(body)
  }

  // ---------------------------------------------------------------------
  // What the checks keep out, and what passes
  // ---------------------------------------------------------------------

  ghost predicate SingleLines(lines: seq<string>) {
    forall i :: 0 <= i < |lines| ==> '\n' !in lines[i]
  }

  lemma {:induction false} SplitLinesAreSingle(s: string)
    ensures SingleLines(SplitLines(s))
  {
    if s != "" {
      if IsLineBreak(s[0]) {
        SplitLinesAreSingle(if |s| > 1 && s[0] == '\r' && s[1] == '\n' then s[2..] else s[1..]);
      } else {
        SplitLinesAreSingle(s[1..]);
      }
    }
  }

  lemma {:induction false} LeftStripConcat(a: string, b: string)
    ensures LeftStrip(a + b) == if LeftStrip(a) == "" then LeftStrip(b) else LeftStrip(a) + b
  {
    if a == "" {
      assert a + b == b;
    } else if IsSpace(a[0]) {
      assert (a + b)[1..] == a[1..] + b;
      LeftStripConcat(a[1..], b);
    }
  }

  /** The first solid character from the start of any line on is no backslash. */
  lemma {:induction false} JoinHasNoCommand(lines: seq<string>, i: nat)
    requires SingleLines(lines) && forall k :: 0 <= k < |lines| ==> !PsqlCommand(lines[k])
    requires LineStart(Join(lines), i)
    ensures !PsqlCommand(Join(lines)[i..])
  {
    if |lines| == 1 {
      assert lines[0][0..] == lines[0];
    } else if lines != [] {
      var first, rest := lines[0], Join(lines[1..]);
      assert Join(lines) == first + "\n" + rest;
      if i == 0 {
        JoinHasNoCommand(lines[1..], 0);
        assert rest[0..] == rest && Join(lines)[0..] == first + ("\n" + rest);
        LeftStripConcat(first, "\n" + rest);
        assert ("\n" + rest)[1..] == rest;
      } else {
        forall k | 0 <= k < |first| ensures Join(lines)[k] != '\n' {
          assert Join(lines)[k] == first[k] && first[k] in first;
        }
        assert i > |first| + 1 ==> Join(lines)[i - 1] == rest[i - |first| - 2];
        JoinHasNoCommand(lines[1..], i - |first| - 1);
        assert Join(lines)[i..] == rest[i - |first| - 1..];
      }
    }
  }

  /**
   Wherever psql starts to read a line of an accepted body, what follows is neither a psql
   command nor COMMIT, ROLLBACK or START TRANSACTION.
   */
  lemma NoControlAtLineStart(isWord: char -> bool, text: string, i: nat)
    requires BodyOf(isWord, text).Some? && LineStart(BodyOf(isWord, text).value, i)
    ensures var rest := BodyOf(isWord, text).value[i..];
            !PsqlCommand(rest) && !StartsWithControl(isWord, LeftStrip(rest))
  {
    hide SplitLines, Strip, StartsWithControl, LeftStrip;
    var lines := SplitLines(Strip(text));
    SplitLinesAreSingle(Strip(text));
    var inner := lines[1..|lines| - 1];
    forall k | 0 <= k < |inner| ensures !PsqlCommand(inner[k]) && '\n' !in inner[k] {
      assert inner[k] == lines[k + 1];
    }
    JoinHasNoCommand(inner, i);
  }

  ghost predicate OneLine(s: string) {
    forall i :: 0 <= i < |s| ==> !IsLineBreak(s[i])
  }

  /** One of the breaks that end a line before `rest`. */
  ghost predicate IsBreak(br: string, rest: string) {
    || br == "\r\n"
    || (|br| == 1 && IsLineBreak(br[0]) && (br[0] == '\r' && rest != "" ==> rest[0] != '\n'))
  }

  /** The line boundaries and the spaces, by code point. */
  lemma Boundaries(c: char)
    ensures IsLineBreak(c) <==> c as int in {0xa, 0xb, 0xc, 0xd, 0x1c, 0x1d, 0x1e, 0x85, 0x2028, 0x2029}
    ensures IsLineBreak(c) ==> IsSpace(c)
    ensures IsSpace(' ') && IsSpace('\t') && !IsSpace('a') && !IsSpace('\\') && !IsSpace(';')
  {
  }

  /** The text up to a break is a line, and the lines of the rest follow. */
  lemma {:induction false} SplitFirstLine(a: string, br: string, b: string)
    requires OneLine(a) && IsBreak(br, b)
    ensures SplitLines(a + br + b) == [a] + SplitLines(b)
  {
    var s := a + br + b;
    if a == "" {
      assert s == br + b && s[|br|..] == b;
    } else {
      SplitFirstLine(a[1..], br, b);
      assert s[1..] == a[1..] + br + b;
      assert [a[0]] + a[1..] == a;
    }
  }

  lemma {:induction false} SplitLastLine(a: string)
    requires OneLine(a) && a != ""
    ensures SplitLines(a) == [a]
  {
    if |a| == 1 {
      assert a == [a[0]] && SplitLines(a[1..]) == [];
    } else {
      SplitLastLine(a[1..]);
      assert [a[0]] + a[1..] == a;
    }
  }

  ghost predicate AllOneLine(lines: seq<string>) {
    forall i :: 0 <= i < |lines| ==> OneLine(lines[i])
  }

  /** Joined lines are split where they were joined. */
  lemma {:induction false} SplitJoined(lines: seq<string>, rest: string)
    requires AllOneLine(lines) && lines != []
    ensures SplitLines(Join(lines) + "\n" + rest) == lines + SplitLines(rest)
  {
    hide SplitLines, Join, OneLine, IsBreak, IsLineBreak;
    LineFeedIsBreak(if |lines| == 1 then rest else Join(lines[1..]) + "\n" + rest);
    if |lines| == 1 {
      JoinOne(lines);
      SplitFirstLine(lines[0], "\n", rest);
      assert lines == [lines[0]];
    } else {
      SplitJoined(lines[1..], rest);
      JoinMore(lines, rest);
      SplitFirstLine(lines[0], "\n", Join(lines[1..]) + "\n" + rest);
      assert [lines[0]] + (lines[1..] + SplitLines(rest)) == lines + SplitLines(rest);
    }
  }

  lemma LineFeedIsBreak(rest: string)
    ensures IsBreak("\n", rest)
  {
  }

  lemma JoinOne(lines: seq<string>)
    requires |lines| == 1
    ensures Join(lines) == lines[0]
  {
  }

  lemma JoinMore(lines: seq<string>, rest: string)
    requires |lines| > 1
    ensures Join(lines) + "\n" + rest == lines[0] + "\n" + (Join(lines[1..]) + "\n" + rest)
  {
    var first, more := lines[0], Join(lines[1..]);
    assert Join(lines) == first + "\n" + more;
    assert first + "\n" + more + "\n" + rest == first + "\n" + (more + "\n" + rest);
  }

  lemma StripOfTight(s: string)
    requires s != "" && !IsSpace(s[0]) && !IsSpace(s[|s| - 1])
    ensures Strip(s) == s
  {
  }

  ghost predicate AllSpace(s: string) {
    forall i :: 0 <= i < |s| ==> IsSpace(s[i])
  }

  lemma {:induction false} LeftStripSplits(s: string) returns (a: string)
    ensures AllSpace(a) && s == a + LeftStrip(s)
    ensures LeftStrip(s) != "" ==> !IsSpace(LeftStrip(s)[0])
  {
    a := "";
    if s != "" && IsSpace(s[0]) {
      a := LeftStripSplits(s[1..]);
      a := [s[0]] + a;
    }
  }

  lemma {:induction false} RightStripSplits(s: string) returns (b: string)
    ensures AllSpace(b) && s == RightStrip(s) + b
    ensures RightStrip(s) != "" ==> !IsSpace(RightStrip(s)[|RightStrip(s)| - 1])
  {
    b := "";
    if s != "" && IsSpace(s[|s| - 1]) {
      b := RightStripSplits(s[..|s| - 1]);
      b := b + [s[|s| - 1]];
    }
  }

  /** Stripping takes off spaces at both ends, all of them and nothing else. */
  lemma StripSplits(s: string) returns (a: string, b: string)
    ensures AllSpace(a) && AllSpace(b) && s == a + Strip(s) + b
    ensures Strip(s) != "" ==> !IsSpace(Strip(s)[0]) && !IsSpace(Strip(s)[|Strip(s)| - 1])
  {
    a := LeftStripSplits(s);
    b := RightStripSplits(LeftStrip(s));
    assert Strip(s) != "" ==> Strip(s)[0] == LeftStrip(s)[0];
  }

  function FileText(body: string): string {
    "BEGIN;\n" + body + "\nCOMMIT;"
  }

  lemma FileLines(lines: seq<string>)
    requires AllOneLine(lines) && lines != []
    ensures SplitLines(Strip(FileText(Join(lines)))) == ["BEGIN;"] + lines + ["COMMIT;"]
  {
    hide SplitLines, Strip, Join;
    var body := Join(lines);
    StripOfTight(FileText(body));
    assert FileText(body) == "BEGIN;" + "\n" + (body + "\n" + "COMMIT;");
    SplitFirstLine("BEGIN;", "\n", body + "\n" + "COMMIT;");
    SplitJoined(lines, "COMMIT;");
    SplitLastLine("COMMIT;");
    assert ["BEGIN;"] + (lines + ["COMMIT;"]) == ["BEGIN;"] + lines + ["COMMIT;"];
  }

  /** Some line of the body starts with COMMIT, ROLLBACK or START TRANSACTION. */
  ghost predicate ControlAtLineStart(isWord: char -> bool, body: string) {
    exists i :: 0 <= i <= |body| && LineStart(body, i) && StartsWithControl(isWord, LeftStrip(body[i..]))
  }

  /**
   A file around any lines is accepted exactly when none of them is a psql command and no line
   start reads a control keyword; its body is then all of these lines.
   */
  lemma LinesAccepted(isWord: char -> bool, lines: seq<string>)
    requires AllOneLine(lines) && lines != []
    ensures BodyOf(isWord, FileText(Join(lines))) ==
            if (exists i :: 0 <= i < |lines| && PsqlCommand(lines[i])) || ControlAtLineStart(isWord, Join(lines))
            then None else Some(Join(lines))
  {
    hide SplitLines, Strip, LeftStrip, StartsWithControl, Join;
    FileLines(lines);
    StripOfTight("BEGIN;");
    StripOfTight("COMMIT;");
    var all := ["BEGIN;"] + lines + ["COMMIT;"];
    assert all[1..|all| - 1] == lines;
    PlainKeywords();
    assert (exists i :: 0 <= i < |all| && PsqlCommand(all[i]))
      <==> (exists i :: 0 <= i < |lines| && PsqlCommand(lines[i])) by {
      forall i | 0 <= i < |lines| ensures all[i + 1] == lines[i] {}
      forall i | 0 <= i < |all| && PsqlCommand(all[i]) ensures 0 < i <= |lines| {}
    }
  }

  /** Every accepted text is its first line, its body and its last line; those two are BEGIN; and COMMIT;. */
  lemma AcceptedIsRejoined(isWord: char -> bool, text: string)
    requires BodyOf(isWord, text).Some?
    ensures var lines := SplitLines(Strip(text));
            && |lines| >= 3 && Strip(lines[0]) == "BEGIN;" && Strip(lines[|lines| - 1]) == "COMMIT;"
            && lines[0] + "\n" + BodyOf(isWord, text).value + "\n" + lines[|lines| - 1] == Join(lines)
  {
    hide SplitLines, Strip, HasControl;
    var lines := SplitLines(Strip(text));
    JoinLast(lines[1..]);
    assert lines[1..][..|lines| - 2] == lines[1..|lines| - 1];
  }

  lemma {:induction false} JoinLast(lines: seq<string>)
    requires |lines| >= 2
    ensures Join(lines) == Join(lines[..|lines| - 1]) + "\n" + lines[|lines| - 1]
  {
    if |lines| > 2 {
      JoinLast(lines[1..]);
      assert lines[1..][..|lines| - 2] == lines[..|lines| - 1][1..];
    }
  }

  /** A file with a one-line body is accepted exactly when that line starts with neither. */
  lemma OneLineAccepted(isWord: char -> bool, body: string)
    requires OneLine(body)
    ensures BodyOf(isWord, FileText(body)) ==
            if PsqlCommand(body) || StartsWithControl(isWord, LeftStrip(body)) then None else Some(body)
  {
    hide BodyOf, LeftStrip, StartsWithControl, FileText;
    LinesAccepted(isWord, [body]);
    assert Join([body]) == body;
    assert [body][0] == body;
    assert body[0..] == body;
    assert LineStart(body, 0);
  }

  // ---------------------------------------------------------------------
  // The keywords
  // ---------------------------------------------------------------------

  /** `s` spells the lower-case `word` in any mix of cases. */
  ghost predicate Spells(s: string, word: string) {
    |s| == |word| && forall i :: 0 <= i < |s| ==>
      'a' <= word[i] <= 'z' && (s[i] == word[i] || s[i] as int + 32 == word[i] as int)
  }

  lemma SpelledStarts(isWord: char -> bool, w: string, word: string, rest: string)
    requires Spells(w, word)
    ensures StartsWith(w + rest, word)
    ensures StartsWithWord(isWord, w + rest, word) <==> rest == "" || !isWord(rest[0])
  {
    forall i | 0 <= i < |word| ensures Fold((w + rest)[i]) == word[i] {
      assert (w + rest)[i] == w[i];
    }
  }

  /** COMMIT and ROLLBACK in any case are control exactly up to a word boundary. */
  lemma KeywordIsControl(isWord: char -> bool, w: string, rest: string)
    requires Spells(w, "commit") || Spells(w, "rollback")
    ensures StartsWithControl(isWord, w + rest) <==> rest == "" || !isWord(rest[0])
  {
    SpelledStarts(isWord, w, if Spells(w, "commit") then "commit" else "rollback", rest);
    var s := w + rest;
    assert s[0] == w[0];
    assert "commit"[0] == 'c' && "rollback"[0] == 'r' && "start"[0] == 's';
    assert Fold(s[0]) == w[0] || Fold(s[0]) as int == w[0] as int + 32;
  }

  /** START and TRANSACTION in any case, with spaces or breaks between, are control up to a word boundary. */
  lemma StartTransactionIsControl(isWord: char -> bool, w: string, gap: string, v: string, rest: string)
    requires Spells(w, "start") && gap != "" && AllSpace(gap) && Spells(v, "transaction")
    ensures StartsWithControl(isWord, w + gap + v + rest) <==> rest == "" || !isWord(rest[0])
  {
    var s := w + gap + v + rest;
    SpelledStarts(isWord, w, "start", gap + v + rest);
    assert s == w + (gap + v + rest);
    assert s[5..] == gap + (v + rest) && s[5] == gap[0];
    LeftStripOfGap(gap, v + rest);
    SpelledStarts(isWord, v, "transaction", rest);
    assert s[0] == w[0];
    assert "commit"[0] == 'c' && "rollback"[0] == 'r' && "start"[0] == 's';
  }

  lemma {:induction false} LeftStripOfGap(gap: string, s: string)
    requires AllSpace(gap) && s != "" && !IsSpace(s[0])
    ensures LeftStrip(gap + s) == s
  {
    if gap == "" {
      assert gap + s == s;
    } else {
      assert (gap + s)[1..] == gap[1..] + s;
      LeftStripOfGap(gap[1..], s);
    }
  }

  /** A psql command is a line whose first solid character is a backslash. */
  lemma CommandIff(line: string)
    ensures PsqlCommand(line) <==> exists gap, rest :: AllSpace(gap) && line == gap + ("\\" + rest)
  {
    var gap := LeftStripSplits(line);
    if PsqlCommand(line) {
      assert LeftStrip(line) == "\\" + LeftStrip(line)[1..];
      assert AllSpace(gap) && line == gap + ("\\" + LeftStrip(line)[1..]);
    }
    forall gap, rest | AllSpace(gap) && line == gap + ("\\" + rest) ensures PsqlCommand(line) {
      LeftStripOfGap(gap, "\\" + rest);
    }
  }

  /** Line `i` of joined lines starts at a line start and runs up to a line feed or the end. */
  lemma {:induction false} LineIsThere(lines: seq<string>, i: nat) returns (at: nat, tail: string)
    requires i < |lines|
    ensures LineStart(Join(lines), at) && Join(lines)[at..] == lines[i] + tail
    ensures tail == "" || tail[0] == '\n'
  {
    if |lines| == 1 {
      at, tail := 0, "";
      assert Join(lines)[0..] == lines[0] + "";
    } else {
      var first, rest := lines[0], Join(lines[1..]);
      assert Join(lines) == first + "\n" + rest;
      if i == 0 {
        at, tail := 0, "\n" + rest;
        assert Join(lines)[0..] == first + tail;
      } else {
        at, tail := LineIsThere(lines[1..], i - 1);
        assert Join(lines)[at + |first| + 1..] == rest[at..];
        assert at > 0 ==> Join(lines)[at + |first|] == rest[at - 1];
        at := at + |first| + 1;
      }
    }
  }

  /** A line that starts with COMMIT or ROLLBACK, in any case and after spaces, gets the whole file rejected. */
  lemma KeywordLineIsRejected(isWord: char -> bool, lines: seq<string>, i: nat, gap: string, w: string, rest: string)
    requires AllOneLine(lines) && i < |lines| && lines[i] == gap + (w + rest) && AllSpace(gap)
    requires Spells(w, "commit") || Spells(w, "rollback")
    requires !isWord('\n') && (rest == "" || !isWord(rest[0]))
    ensures BodyOf(isWord, FileText(Join(lines))).None?
  {
    hide BodyOf, Join, FileText, StartsWithControl, LeftStrip, Spells, AllSpace, OneLine;
    LinesAccepted(isWord, lines);
    var at, tail := LineIsThere(lines, i);
    assert Join(lines)[at..] == gap + (w + rest) + tail;
    KeywordIsRead(isWord, gap, w, rest, tail);
    assert at <= |Join(lines)|;
  }

  lemma KeywordIsRead(isWord: char -> bool, gap: string, w: string, rest: string, tail: string)
    requires AllSpace(gap) && (Spells(w, "commit") || Spells(w, "rollback"))
    requires !isWord('\n') && (rest == "" || !isWord(rest[0])) && (tail == "" || tail[0] == '\n')
    ensures StartsWithControl(isWord, LeftStrip(gap + (w + rest) + tail))
  {
    hide StartsWithControl, LeftStrip;
    Letters(w);
    KeywordIsControl(isWord, w, rest + tail);
    LeftStripOfGap(gap, w + (rest + tail));
    assert gap + (w + rest) + tail == gap + (w + (rest + tail));
  }

  lemma Letters(w: string)
    requires Spells(w, "commit") || Spells(w, "rollback")
    ensures w != "" && !IsSpace(w[0])
  {
    assert "commit"[0] == 'c' && "rollback"[0] == 'r';
  }

  lemma PlainKeywords()
    ensures !PsqlCommand("BEGIN;") && !PsqlCommand("COMMIT;")
  {
  }

  /** A first letter that starts no keyword is enough. */
  lemma OtherStartAccepted(isWord: char -> bool, body: string)
    requires OneLine(body) && body != "" && (body[0] == 'E' || (body[0] == 'S' && |body| > 1 && body[1] == 'E'))
    ensures BodyOf(isWord, FileText(body)) == Some(body)
  {
    hide BodyOf;
    assert LeftStrip(body) == body;
    assert !StartsWithControl(isWord, body) by {
      assert Fold(body[0]) == 'e' || (Fold(body[0]) == 's' && Fold(body[1]) == 'e');
      assert "commit"[0] == 'c' && "rollback"[0] == 'r' && "start"[0] == 's' && "start"[1] == 't';
    }
    OneLineAccepted(isWord, body);
  }

  /** Transaction control and psql commands that the checks accept. */
  lemma AcceptedControl(isWord: char -> bool)
    ensures BodyOf(isWord, FileText("END;")) == Some("END;")
    ensures BodyOf(isWord, FileText("SELECT 1; COMMIT;")) == Some("SELECT 1; COMMIT;")
    ensures BodyOf(isWord, FileText("SELECT 1; ROLLBACK;")) == Some("SELECT 1; ROLLBACK;")
    ensures BodyOf(isWord, FileText("SELECT 1 \\c other")) == Some("SELECT 1 \\c other")
  {
    hide BodyOf, FileText;
    OtherStartAccepted(isWord, "END;");
    OtherStartAccepted(isWord, "SELECT 1; COMMIT;");
    OtherStartAccepted(isWord, "SELECT 1; ROLLBACK;");
    OtherStartAccepted(isWord, "SELECT 1 \\c other");
  }
}
