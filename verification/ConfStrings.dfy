/** How symbol values are written to .config lines and read back. */
module ConfStrings {
  import opened Wrappers
  import opened Configuration

  // ---------- Python string operations ----------

  predicate StartsWith(s: string, p: string) {
    |p| <= |s| && s[..|p|] == p
  }

  /** str.replace: leftmost, non-overlapping occurrences. */
  function Replace(s: string, from: string, to: string): string
    requires from != ""
  {
    if s == "" then ""
    else if StartsWith(s, from) then to + Replace(s[|from|..], from, to)
    else [s[0]] + Replace(s[1..], from, to)
  }

  predicate White(c: char) {
    c == ' ' || '\t' <= c <= '\r' || '\U{1C}' <= c <= '\U{1F}'
  }

  function Rstrip(s: string): string {
    if s != "" && White(s[|s| - 1]) then Rstrip(s[..|s| - 1]) else s
  }

  predicate WordChar(c: char) {
    'a' <= c <= 'z' || 'A' <= c <= 'Z' || '0' <= c <= '9' || c == '_'
  }

  predicate Word(s: string) {
    s != "" && forall c <- s :: WordChar(c)
  }

  /** Length of the longest prefix of word characters: what a greedy \w+ takes. */
  function WordRun(s: string): (n: nat)
    ensures n <= |s|
  {
    if s == "" || !WordChar(s[0]) then 0 else 1 + WordRun(s[1..])
  }

  // ---------- writing ----------

  function Escape(v: string): string {
    Replace(Replace(v, "\\", "\\\\"), "\"", "\\\"")
  }

  function Quote(v: string): string {
    "\"" + Escape(v) + "\""
  }

  /** The line that stands for a symbol that is written out. */
  function SaveLine(prefix: string, ty: SymType, name: string, val: string): string
    requires ty != Unknown
  {
    if Logical(ty) then
      if val == "y" || val == "m" then prefix + name + "=" + val else "# " + prefix + name + " is not set"
    else if ty == Text then prefix + name + "=" + Quote(val)
    else prefix + name + "=" + val
  }

  // ---------- reading ----------

  datatype Loaded = Assign(name: string, val: string) | Malformed | Ignored

  function Unescape(w: string): string {
    Replace(Replace(w, "\\\"", "\""), "\\\\", "\\")
  }

  /** The value after "="; None for a malformed string literal. */
  function Unquote(val: string): Option<string> {
    if StartsWith(val, "\"") then
      if |val| < 2 || val[|val| - 1] != '"' then None else Some(Unescape(val[1..|val| - 1]))
    else Some(val)
  }

  /** Matches "<prefix><name>=<rest of the line>". */
  function SetMatch(prefix: string, line: string): Option<(string, string)> {
    if !StartsWith(line, prefix) then None
    else
      var rest := line[|prefix|..];
      var n := WordRun(rest);
      if n > 0 && n < |rest| && rest[n] == '=' then Some((rest[..n], UpToNewline(rest[n + 1..]))) else None
  }

  function UpToNewline(s: string): string {
    if s == "" || s[0] == '\n' then "" else [s[0]] + UpToNewline(s[1..])
  }

  /** Matches "# <prefix><name> is not set". */
  function UnsetMatch(prefix: string, line: string): Option<string> {
    if !StartsWith(line, "# " + prefix) then None
    else
      var rest := line[|prefix| + 2..];
      var n := WordRun(rest);
      if n > 0 && StartsWith(rest[n..], " is not set") then Some(rest[..n]) else None
  }

  function LoadLine(prefix: string, raw: string): Loaded {
    var line := Rstrip(raw);
    var set_ := SetMatch(prefix, line);
    if set_.Some? then
      var val := Unquote(set_.value.1);
      if val.None? then Malformed else Assign(set_.value.0, val.value)
    else
      var unset := UnsetMatch(prefix, line);
      if unset.Some? then Assign(unset.value, "n") else Ignored
  }

  // ---------- feeding lines ----------

  /** Reading in text mode turns carriage returns, alone or before a newline, into newlines. */
  function Universal(s: string): string {
    if s == "" then ""
    else if s[0] != '\r' then [s[0]] + Universal(s[1..])
    else "\n" + Universal(if |s| > 1 && s[1] == '\n' then s[2..] else s[1..])
  }

  /** How far the first line reaches, its newline included. */
  function LineEnd(s: string): (n: nat)
    ensures n <= |s| && (s != "" ==> n > 0)
  {
    if s == "" then 0 else if s[0] == '\n' then 1 else 1 + LineEnd(s[1..])
  }

  function Split(s: string): seq<string> {
    if s == "" then [] else [s[..LineEnd(s)]] + Split(s[LineEnd(s)..])
  }

  /** readlines() of a file with this text. */
  function Lines(text: string): seq<string> {
    Split(Universal(text))
  }

  predicate EndsWith(s: string, e: string) {
    |e| <= |s| && s[|s| - |e|..] == e
  }

  /** The next line, joined with the following ones as long as it ends in a backslash. PastEnd is the
      index error when such a line is the last one. */
  datatype Fed = NoMore | Fed(line: string, next: nat) | PastEnd

  function Joined(lines: seq<string>, line: string, next: nat): (fed: Fed)
    requires next <= |lines|
    ensures !fed.NoMore? && (fed.Fed? ==> next <= fed.next <= |lines|)
    decreases |lines| - next
  {
    if !EndsWith(line, "\\\n") then Fed(line, next)
    else if next >= |lines| then PastEnd
    else Joined(lines, line[..|line| - 2] + lines[next], next + 1)
  }

  function GetNext(lines: seq<string>, i: nat): (fed: Fed)
    ensures fed.Fed? ==> i < fed.next <= |lines|
  {
    if i >= |lines| then NoMore else Joined(lines, lines[i], i + 1)
  }

  /** A line that ends in a backslash is read as if the next line had been written in its place behind it. */
  lemma ContinuedLine(lines: seq<string>, i: nat, stem: string)
    requires i < |lines| && lines[i] == stem + "\\\n"
    ensures i + 1 >= |lines| ==> GetNext(lines, i) == PastEnd
    ensures i + 1 < |lines| ==> GetNext(lines, i) == GetNext(lines[i + 1 := stem + lines[i + 1]], i + 1)
  {
    var line := lines[i];
    assert line[|line| - 2..] == "\\\n" && line[..|line| - 2] == stem;
    if i + 1 < |lines| {
      SameJoined(lines, lines[i + 1 := stem + lines[i + 1]], stem + lines[i + 1], i + 2);
    }
  }

  lemma {:induction false} SameJoined(lines: seq<string>, lines': seq<string>, line: string, next: nat)
    requires next <= |lines| == |lines'| && lines[next..] == lines'[next..]
    ensures Joined(lines, line, next) == Joined(lines', line, next)
    decreases |lines| - next
  {
    if EndsWith(line, "\\\n") && next < |lines| {
      assert lines[next] == lines[next..][0] == lines'[next];
      assert lines[next + 1..] == lines[next..][1..] == lines'[next + 1..];
      SameJoined(lines, lines', line[..|line| - 2] + lines[next], next + 1);
    }
  }

  /** Any other line is read as it is. */
  lemma PlainLine(lines: seq<string>, i: nat)
    requires i < |lines| && (|lines[i]| < 2 || lines[i][|lines[i]| - 1] != '\n' || lines[i][|lines[i]| - 2] != '\\')
    ensures GetNext(lines, i) == Fed(lines[i], i + 1)
  {
    var line := lines[i];
    if |line| >= 2 { assert line[|line| - 2..] == [line[|line| - 2], line[|line| - 1]]; }
  }

  class FileFeed {
    const lines: seq<string>
    var linenr: nat

    constructor (lines: seq<string>)
      ensures this.lines == lines && linenr == 0
    {
      this.lines, linenr := lines, 0;
    }

    /** _FileFeed.get_next, with what the caller sees of it. */
    method Next() returns (fed: Fed)
      modifies this
      ensures fed == GetNext(lines, old(linenr))
      ensures fed.Fed? ==> linenr == fed.next
      ensures fed.NoMore? ==> linenr == old(linenr)
    {
      if linenr >= |lines| { return NoMore; }
      var line := lines[linenr];
      linenr := linenr + 1;
      while EndsWith(line, "\\\n")
        invariant linenr <= |lines| && GetNext(lines, old(linenr)) == Joined(lines, line, linenr)
        decreases |lines| - linenr
      {
        if linenr >= |lines| { return PastEnd; }
        line := line[..|line| - 2] + lines[linenr];
        linenr := linenr + 1;
      }
      fed := Fed(line, linenr);
    }
  }

  /** All lines of a file; None when loading raises an exception. */
  function LoadLines(prefix: string, lines: seq<string>): Option<seq<Loaded>>
    decreases |lines|
  {
    match GetNext(lines, 0)
    case NoMore => Some([])
    case PastEnd => None
    case Fed(line, next) =>
      var first := LoadLine(prefix, line);
      if first.Malformed? then None
      else
        var rest := LoadLines(prefix, lines[next..]);
        if rest.None? then None else Some([first] + rest.value)
  }

  // ---------- the two-step escape and the two-step unescape ----------

  function Doubled(v: string): string {
    Replace(v, "\\", "\\\\")
  }

  lemma {:induction false} DoubledStep(v: string)
    requires v != ""
    ensures Doubled(v) == (if v[0] == '\\' then "\\\\" else [v[0]]) + Doubled(v[1..])
  {
    assert StartsWith(v, "\\") <==> v[0] == '\\';
  }

  /** Escaping in two passes escapes each character on its own. */
  lemma {:induction false} EscapeStep(v: string)
    requires v != ""
    ensures Escape(v) == (if v[0] == '\\' then "\\\\" else if v[0] == '"' then "\\\"" else [v[0]]) + Escape(v[1..])
  {
    DoubledStep(v);
    var d := Doubled(v);
    assert StartsWith(d, "\"") <==> d[0] == '"';
    if v[0] == '\\' {
      assert d[1..] == ['\\'] + Doubled(v[1..]);
      assert !StartsWith(d[1..], "\"") by { assert d[1..][..1][0] == '\\'; }
      assert d[1..][1..] == Doubled(v[1..]);
      assert Replace(d[1..], "\"", "\\\"") == ['\\'] + Escape(v[1..]);
      assert Escape(v) == ['\\'] + (['\\'] + Escape(v[1..]));
    } else {
      assert d[1..] == Doubled(v[1..]);
    }
  }

  /** An escaped string never starts with a bare quote. */
  lemma EscapeStart(v: string)
    ensures v != "" ==> Escape(v) != "" && Escape(v)[0] != '"'
    ensures v == "" ==> Escape(v) == ""
  {
    if v != "" { EscapeStep(v); }
  }

  lemma {:induction false} FirstUnescape(v: string)
    ensures Replace(Escape(v), "\\\"", "\"") == Doubled(v)
  {
    if v != "" {
      FirstUnescape(v[1..]);
      FirstUnescapeStep(v);
    }
  }

  lemma FirstUnescapeStep(v: string)
    requires v != "" && Replace(Escape(v[1..]), "\\\"", "\"") == Doubled(v[1..])
    ensures Replace(Escape(v), "\\\"", "\"") == Doubled(v)
  {
    hide Escape, Doubled;
    var e := Escape(v);
    var rest := Escape(v[1..]);
    EscapeStep(v);
    DoubledStep(v);
    EscapeStart(v[1..]);
    if v[0] == '\\' {
      assert e == ['\\', '\\'] + rest && e[1] == '\\';
      assert !StartsWith(e, "\\\"") by { assert e[..2][1] == '\\'; }
      assert e[1..] == ['\\'] + rest && e[1..][1..] == rest;
      assert !StartsWith(e[1..], "\\\"") by { if rest != "" { assert e[1..][..2][1] == rest[0]; } }
    } else if v[0] == '"' {
      assert e[..2] == "\\\"" && e[2..] == rest;
    } else {
      assert e[1..] == rest;
      assert !StartsWith(e, "\\\"") by { if |e| >= 2 { assert e[..2][0] == v[0]; } }
    }
  }

  lemma {:induction false} SecondUnescape(v: string)
    ensures Replace(Doubled(v), "\\\\", "\\") == v
  {
    if v != "" {
      var d := Doubled(v);
      DoubledStep(v);
      SecondUnescape(v[1..]);
      if v[0] == '\\' {
        assert d[..2] == "\\\\" && d[2..] == Doubled(v[1..]);
      } else {
        assert d[1..] == Doubled(v[1..]);
        assert !StartsWith(d, "\\\\") by { if |d| >= 2 { assert d[..2][0] == v[0]; } }
      }
      assert [v[0]] + v[1..] == v;
    }
  }

  /** Whatever quotes and backslashes a string contains, it survives. */
  lemma UnescapeEscape(v: string)
    ensures Unescape(Escape(v)) == v
  {
    FirstUnescape(v);
    SecondUnescape(v);
  }

  lemma UnquoteQuote(v: string)
    ensures Unquote(Quote(v)) == Some(v)
  {
    hide Escape, Unescape;
    var q := Quote(v);
    assert q[..1] == "\"" && q[|q| - 1] == '"';
    assert q[1..|q| - 1] == Escape(v);
    UnescapeEscape(v);
  }

  // ---------- whole lines ----------

  lemma {:induction false} WordRunOf(name: string, tail: string)
    requires forall c <- name :: WordChar(c)
    requires tail == "" || !WordChar(tail[0])
    ensures WordRun(name + tail) == |name|
  {
    if name == "" {
      assert name + tail == tail;
    } else {
      assert name[0] in name;
      assert (name + tail)[1..] == name[1..] + tail;
      WordRunOf(name[1..], tail);
    }
  }

  lemma {:induction false} NoNewlineKept(s: string)
    requires '\n' !in s
    ensures UpToNewline(s) == s
  {
    if s != "" {
      NoNewlineKept(s[1..]);
      assert [s[0]] + s[1..] == s;
    }
  }

  /** A line "<prefix><name>=<val>" is taken apart again. */
  lemma SetLineMatches(prefix: string, name: string, val: string)
    requires Word(name) && '\n' !in val
    ensures SetMatch(prefix, prefix + name + "=" + val) == Some((name, val))
  {
    var line := prefix + name + "=" + val;
    assert line[..|prefix|] == prefix;
    var rest := name + ("=" + val);
    assert line[|prefix|..] == rest;
    WordRunOf(name, "=" + val);
    assert rest[..|name|] == name && rest[|name| + 1..] == val;
    NoNewlineKept(val);
  }

  lemma UnsetLineMatches(prefix: string, name: string)
    requires Word(name) && (prefix == "" || WordChar(prefix[0]))
    ensures var line := "# " + prefix + name + " is not set";
            SetMatch(prefix, line).None? && UnsetMatch(prefix, line) == Some(name)
  {
    var line := "# " + prefix + name + " is not set";
    assert line[..|prefix| + 2] == "# " + prefix;
    var rest := name + " is not set";
    assert line[|prefix| + 2..] == rest;
    WordRunOf(name, " is not set");
    assert rest[..|name|] == name && rest[|name|..] == " is not set";
    assert line[0] == '#';
    if prefix == "" {
      assert line[|prefix|..] == line;
    } else {
      assert !StartsWith(line, prefix) by { if |prefix| <= |line| { assert line[..|prefix|][0] == '#'; } }
    }
  }

  /** The last character of `s` is `c`. */
  predicate EndsIn(s: string, c: char) {
    s != "" && s[|s| - 1] == c
  }

  /** Nothing that text mode takes for the end of a line. */
  predicate OneLine(s: string) {
    '\n' !in s && '\r' !in s
  }

  /** Which values a written line gives back. A string of one line always comes back. A number does unless
      it starts like a string literal, ends in white space, or ends in a backslash, which only a default that
      is no number, or a user value with stray spaces, can. */
  predicate Survives(ty: SymType, val: string) {
    match ty
    case Bool => val == "n" || val == "y"
    case Tristate => val == "n" || val == "m" || val == "y"
    case Text => OneLine(val)
    case _ => OneLine(val) && !StartsWith(val, "\"") && (val == "" || !White(val[|val| - 1])) && !EndsIn(val, '\\')
  }

  /** What is read back from the first line of a file. */
  ghost predicate ReadBack(prefix: string, lines: seq<string>, name: string, val: string) {
    var fed := GetNext(lines, 0);
    fed.Fed? && fed.next == 1 && LoadLine(prefix, fed.line) == Assign(name, val)
  }

  /** A written line, whatever follows it in the file, is read by itself and as the assignment it was
      written for if and only if the name is a word, as the names of symbols need not be, and the value
      survives. */
  lemma SavedLineLoads(prefix: string, ty: SymType, name: string, val: string, rest: string)
    requires ty != Unknown && forall c <- prefix :: WordChar(c)
    requires Logical(ty) ==> Survives(ty, val)
    ensures ReadBack(prefix, Lines(SaveLine(prefix, ty, name, val) + "\n" + rest), name, val) <==>
            Word(name) && Survives(ty, val)
  {
    hide Escape, Unescape, LoadLine, Lines, Joined, WordChar;
    var line := SaveLine(prefix, ty, name, val);
    var lines := Lines(line + "\n" + rest);
    LinesClean(line + "\n" + rest);
    if !Word(name) {
      OnlyWordsAssigned(prefix, FirstFed(lines));
    } else if !OneLine(val) && !Logical(ty) {
      FedClean(lines);
      OnlyOneLineAssigned(prefix, FirstFed(lines));
    } else {
      SavedOneLine(prefix, ty, name, val);
      FirstLine(line, rest);
      SavedLineRead(prefix, ty, name, val, Lines(rest));
    }
  }

  function FirstFed(lines: seq<string>): string {
    var fed := GetNext(lines, 0);
    if fed.Fed? then fed.line else ""
  }

  lemma SavedLineRead(prefix: string, ty: SymType, name: string, val: string, rest: seq<string>)
    requires ty != Unknown && (prefix == "" || WordChar(prefix[0])) && Word(name) && OneLine(val)
    requires Logical(ty) ==> Survives(ty, val)
    ensures ReadBack(prefix, [SaveLine(prefix, ty, name, val) + "\n"] + rest, name, val) <==> Survives(ty, val)
  {
    hide Escape, Unescape, LoadLine;
    var line := SaveLine(prefix, ty, name, val);
    var lines := [line + "\n"] + rest;
    assert lines[0] == line + "\n";
    JoinedOrNot(lines, line);
    LastOfSaved(prefix, ty, name, val);
    SavedLineParsed(prefix, ty, name, val);
  }

  // ---------- lines of a text ----------

  lemma {:induction false} UniversalLine(line: string, rest: string)
    requires OneLine(line)
    ensures Universal(line + "\n" + rest) == line + "\n" + Universal(rest)
  {
    if line == "" {
      assert line + "\n" + rest == "\n" + rest;
      assert ("\n" + rest)[1..] == rest;
    } else {
      assert line[0] in line;
      assert (line + "\n" + rest)[1..] == line[1..] + "\n" + rest;
      UniversalLine(line[1..], rest);
      assert line + "\n" + Universal(rest) == [line[0]] + (line[1..] + "\n" + Universal(rest));
    }
  }

  lemma {:induction false} LineEndOf(line: string, rest: string)
    requires '\n' !in line
    ensures LineEnd(line + "\n" + rest) == |line| + 1
  {
    if line == "" {
      assert (line + "\n" + rest)[0] == '\n';
    } else {
      assert line[0] in line;
      assert (line + "\n" + rest)[1..] == line[1..] + "\n" + rest;
      LineEndOf(line[1..], rest);
    }
  }

  lemma FirstLine(line: string, rest: string)
    requires OneLine(line)
    ensures Lines(line + "\n" + rest) == [line + "\n"] + Lines(rest)
  {
    UniversalLine(line, rest);
    var text := line + "\n" + Universal(rest);
    LineEndOf(line, Universal(rest));
    assert text[..|line| + 1] == line + "\n" && text[|line| + 1..] == Universal(rest);
  }

  lemma {:induction false} UniversalClean(s: string)
    ensures '\r' !in Universal(s)
  {
    if s != "" {
      UniversalClean(if s[0] != '\r' then s[1..] else if |s| > 1 && s[1] == '\n' then s[2..] else s[1..]);
    }
  }

  predicate Clean(lines: seq<string>) {
    forall i :: 0 <= i < |lines| ==> '\r' !in lines[i]
  }

  lemma {:induction false} SplitClean(s: string)
    requires '\r' !in s
    ensures Clean(Split(s))
  {
    if s != "" { SplitClean(s[LineEnd(s)..]); }
  }

  lemma LinesClean(text: string)
    ensures Clean(Lines(text))
  {
    UniversalClean(text);
    SplitClean(Universal(text));
  }

  lemma {:induction false} JoinedClean(lines: seq<string>, line: string, next: nat)
    requires next <= |lines| && Clean(lines) && '\r' !in line
    ensures Joined(lines, line, next).Fed? ==> '\r' !in Joined(lines, line, next).line
    decreases |lines| - next
  {
    if EndsWith(line, "\\\n") && next < |lines| {
      JoinedClean(lines, line[..|line| - 2] + lines[next], next + 1);
    }
  }

  lemma FedClean(lines: seq<string>)
    requires Clean(lines)
    ensures '\r' !in FirstFed(lines)
  {
    hide Joined;
    if lines != [] { JoinedClean(lines, lines[0], 1); }
  }

  lemma {:induction false} NoneUpToNewline(s: string, c: char)
    requires c !in s || c == '\n'
    ensures c !in UpToNewline(s)
  {
    if s != "" { NoneUpToNewline(s[1..], c); }
  }

  lemma UnquoteOneLine(val: string)
    requires OneLine(val)
    ensures Unquote(val).Some? ==> OneLine(Unquote(val).value)
  {
    if StartsWith(val, "\"") && |val| >= 2 {
      var w := val[1..|val| - 1];
      NothingIntroduced(w, "\\\"", "\"", '\n');
      NothingIntroduced(w, "\\\"", "\"", '\r');
      NothingIntroduced(Replace(w, "\\\"", "\""), "\\\\", "\\", '\n');
      NothingIntroduced(Replace(w, "\\\"", "\""), "\\\\", "\\", '\r');
    }
  }

  lemma SetMatchOneLine(prefix: string, line: string)
    requires '\r' !in line
    ensures SetMatch(prefix, line).Some? ==> OneLine(SetMatch(prefix, line).value.1)
  {
    hide UpToNewline;
    if StartsWith(line, prefix) {
      var rest := line[|prefix|..];
      var n := WordRun(rest);
      if n < |rest| {
        NoneUpToNewline(rest[n + 1..], '\n');
        NoneUpToNewline(rest[n + 1..], '\r');
      }
    }
  }

  /** No assigned value has a line end in it. */
  lemma OnlyOneLineAssigned(prefix: string, raw: string)
    requires '\r' !in raw
    ensures LoadLine(prefix, raw).Assign? ==> OneLine(LoadLine(prefix, raw).val)
  {
    hide Unquote, Rstrip, SetMatch, UnsetMatch;
    StripSubset(raw, '\r');
    var line := Rstrip(raw);
    SetMatchOneLine(prefix, line);
    if SetMatch(prefix, line).Some? { UnquoteOneLine(SetMatch(prefix, line).value.1); }
  }

  /** A value of one line is written to one line. */
  lemma SavedOneLine(prefix: string, ty: SymType, name: string, val: string)
    requires ty != Unknown && (forall c <- prefix :: WordChar(c)) && Word(name)
    requires if Logical(ty) then Survives(ty, val) else OneLine(val)
    ensures OneLine(SaveLine(prefix, ty, name, val)) && OneLine(val)
  {
    hide Escape;
    if ty == Text {
      QuoteOneLine(val, '\n');
      QuoteOneLine(val, '\r');
    }
  }

  // ---------- names ----------

  lemma {:induction false} WordRunIsWord(s: string)
    ensures WordRun(s) > 0 ==> Word(s[..WordRun(s)])
  {
    if WordRun(s) > 1 {
      WordRunIsWord(s[1..]);
      assert s[..WordRun(s)] == [s[0]] + s[1..][..WordRun(s[1..])];
    }
  }

  /** The regular expressions accept no other names, whatever the line. */
  lemma OnlyWordsAssigned(prefix: string, raw: string)
    ensures LoadLine(prefix, raw).Assign? ==> Word(LoadLine(prefix, raw).name)
  {
    hide Unquote, Rstrip, Word, UpToNewline;
    var line := Rstrip(raw);
    if StartsWith(line, prefix) { WordRunIsWord(line[|prefix|..]); }
    if StartsWith(line, "# " + prefix) { WordRunIsWord(line[|prefix| + 2..]); }
  }

  /** A line assigns something only if, apart from white space at its end, it starts with the prefix, a word and
      "=", or says that a word is not set. */
  lemma AssignedForms(prefix: string, raw: string)
    ensures LoadLine(prefix, raw).Assign? ==>
              var name, line := LoadLine(prefix, raw).name, Rstrip(raw);
              || (StartsWith(line, prefix + name + "=") && Word(name))
              || (StartsWith(line, "# " + prefix + name + " is not set") && Word(name)
                  && LoadLine(prefix, raw).val == "n")
  {
    hide Unquote, Rstrip, Word, UpToNewline;
    OnlyWordsAssigned(prefix, raw);
    var line := Rstrip(raw);
    if StartsWith(line, prefix) { SetForm(prefix, line); }
    if StartsWith(line, "# " + prefix) { UnsetForm(prefix, line); }
  }

  lemma SetForm(prefix: string, line: string)
    requires StartsWith(line, prefix)
    ensures SetMatch(prefix, line).Some? ==> StartsWith(line, prefix + SetMatch(prefix, line).value.0 + "=")
  {
    hide UpToNewline;
    var rest := line[|prefix|..];
    var n := WordRun(rest);
    if n < |rest| { assert line[..|prefix| + n + 1] == prefix + rest[..n] + [rest[n]]; }
  }

  lemma UnsetForm(prefix: string, line: string)
    requires StartsWith(line, "# " + prefix)
    ensures UnsetMatch(prefix, line).Some? ==>
              StartsWith(line, "# " + prefix + UnsetMatch(prefix, line).value + " is not set")
  {
    var rest := line[|prefix| + 2..];
    var n := WordRun(rest);
    if StartsWith(rest[n..], " is not set") {
      assert line[..|prefix| + 2 + n + 11] == "# " + prefix + rest[..n] + rest[n..][..11];
    }
  }

  /** What is written, by type. */
  lemma SavedForms(prefix: string, ty: SymType, name: string, val: string)
    requires ty != Unknown && (Logical(ty) ==> Survives(ty, val))
    ensures Logical(ty) && val == "n" ==> SaveLine(prefix, ty, name, val) == "# " + prefix + name + " is not set"
    ensures (Logical(ty) && val != "n") || ty == Int || ty == Hex ==>
              SaveLine(prefix, ty, name, val) == prefix + name + "=" + val
    ensures ty == Text && Plain(val) ==>
              SaveLine(prefix, ty, name, val) == prefix + name + "=\"" + val + "\""
  {
    if ty == Text && Plain(val) { PlainEscape(val); }
    hide Escape;
    assert "n" != "y" && "n" != "m";
    assert prefix + name + "=" + ("\"" + Escape(val) + "\"") == prefix + name + "=\"" + Escape(val) + "\"";
  }

  predicate Plain(val: string) {
    forall i :: 0 <= i < |val| ==> val[i] != '"' && val[i] != '\\'
  }

  lemma {:induction false} PlainEscape(val: string)
    requires Plain(val)
    ensures Escape(val) == val
  {
    if val != "" {
      EscapeStep(val);
      PlainEscape(val[1..]);
      assert [val[0]] + val[1..] == val;
    }
  }

  /** What the tokenizer takes for a name. */
  predicate SymbolName(s: string) {
    s != "" && forall c <- s :: WordChar(c) || c == '.' || c == '/' || c == '-'
  }

  lemma {:induction false} WordRunStops(s: string, tail: string)
    requires WordRun(s) < |s|
    ensures WordRun(s + tail) == WordRun(s)
  {
    if WordRun(s) > 0 {
      WordRunStops(s[1..], tail);
      assert (s + tail)[1..] == s[1..] + tail;
    }
  }

  /** Neither expression gets past the end of the word that such a name starts with. */
  lemma OtherNameStops(name: string, tail: string)
    requires SymbolName(name) && !Word(name)
    ensures var n := WordRun(name + tail); n < |name| && name[n] in "./-" && (name + tail)[n] == name[n]
  {
    WordRunIsWord(name);
    assert name[..|name|] == name;
    WordRunStops(name, tail);
    WordRunEnds(name);
  }

  lemma {:induction false} WordRunEnds(s: string)
    ensures WordRun(s) < |s| ==> !WordChar(s[WordRun(s)])
  {
    if s != "" && WordChar(s[0]) { WordRunEnds(s[1..]); }
  }

  lemma OtherNameUnset(prefix: string, name: string, tail: string)
    requires SymbolName(name) && !Word(name) && (prefix == "" || WordChar(prefix[0]))
    ensures var line := "# " + prefix + name + tail; SetMatch(prefix, line).None? && UnsetMatch(prefix, line).None?
  {
    hide SymbolName, Word, UpToNewline;
    var line := "# " + prefix + name + tail;
    OtherNameStops(name, tail);
    assert line[|prefix| + 2..] == name + tail;
    CommentUnset(prefix, line);
    hide WordRun;
  }

  lemma CommentUnset(prefix: string, line: string)
    requires (prefix == "" || WordChar(prefix[0])) && line != "" && line[0] == '#'
    ensures SetMatch(prefix, line).None?
  {
    hide UpToNewline;
    assert line[0..] == line;
    if prefix != "" {
      assert !StartsWith(line, prefix) by { if |prefix| <= |line| { assert line[..|prefix|][0] == '#'; } }
    }
  }

  lemma OtherNameSet(prefix: string, name: string, tail: string)
    requires SymbolName(name) && !Word(name) && (prefix == "" || WordChar(prefix[0]))
    ensures var line := prefix + name + tail; SetMatch(prefix, line).None? && UnsetMatch(prefix, line).None?
  {
    hide Word, UpToNewline;
    var line := prefix + name + tail;
    OtherNameStops(name, tail);
    assert line[|prefix|..] == name + tail;
    assert line[0] == if prefix == "" then name[0] else prefix[0];
    assert line[0] != '#' by { assert name[0] in name; }
    assert !StartsWith(line, "# " + prefix) by {
      if |prefix| + 2 <= |line| { assert line[..|prefix| + 2][0] == line[0]; }
    }
    hide WordRun;
  }

  lemma UnmatchedIgnored(prefix: string, raw: string)
    requires SetMatch(prefix, Rstrip(raw)).None? && UnsetMatch(prefix, Rstrip(raw)).None?
    ensures LoadLine(prefix, raw) == Ignored
  {
  }

  /** The line of a symbol whose name is not a word is passed over. */
  lemma OtherNamesIgnored(prefix: string, ty: SymType, name: string, val: string)
    requires ty != Unknown && (prefix == "" || WordChar(prefix[0]))
    requires SymbolName(name) && !Word(name)
    ensures LoadLine(prefix, SaveLine(prefix, ty, name, val) + "\n") == Ignored
  {
    hide Quote, SetMatch, UnsetMatch, Rstrip, SymbolName, Word, LoadLine;
    var line := SaveLine(prefix, ty, name, val);
    StripNewline(line);
    if Logical(ty) && val != "y" && val != "m" {
      StripKeeps(line);
      OtherNameUnset(prefix, name, " is not set");
    } else {
      OtherTextUnmatched(prefix, name, if ty == Text then Quote(val) else val);
    }
    UnmatchedIgnored(prefix, line + "\n");
  }

  lemma OtherTextUnmatched(prefix: string, name: string, text: string)
    requires SymbolName(name) && !Word(name) && (prefix == "" || WordChar(prefix[0]))
    ensures var line := Rstrip(prefix + name + "=" + text);
            SetMatch(prefix, line).None? && UnsetMatch(prefix, line).None?
  {
    hide SetMatch, UnsetMatch, Rstrip, SymbolName, Word;
    StripStops(prefix + name + "=", text);
    OtherNameSet(prefix, name, "=" + Rstrip(text));
    assert prefix + name + ("=" + Rstrip(text)) == prefix + name + "=" + Rstrip(text);
  }

  /** The line is fed by itself exactly when it does not end in a backslash. */
  lemma JoinedOrNot(lines: seq<string>, line: string)
    requires lines != [] && lines[0] == line + "\n"
    ensures GetNext(lines, 0) == Fed(line + "\n", 1) <==> !EndsIn(line, '\\')
    ensures EndsIn(line, '\\') ==> GetNext(lines, 0).PastEnd? || (GetNext(lines, 0).Fed? && GetNext(lines, 0).next > 1)
  {
    var l := line + "\n";
    if |l| >= 2 { assert l[|l| - 2..] == [l[|l| - 2], l[|l| - 1]]; }
    assert EndsWith(l, "\\\n") <==> EndsIn(line, '\\');
    if EndsIn(line, '\\') && 1 < |lines| {
      var more := Joined(lines, l[..|l| - 2] + lines[1], 2);
      assert GetNext(lines, 0) == more;
    }
  }

  /** Only a number can put a backslash at the end of its line. */
  lemma LastOfSaved(prefix: string, ty: SymType, name: string, val: string)
    requires ty != Unknown
    ensures EndsIn(SaveLine(prefix, ty, name, val), '\\') <==> !Logical(ty) && ty != Text && EndsIn(val, '\\')
  {
    hide Escape;
  }

  /** What the regular expressions make of a line fed by itself. */
  lemma SavedLineParsed(prefix: string, ty: SymType, name: string, val: string)
    requires ty != Unknown && Word(name) && (prefix == "" || WordChar(prefix[0])) && '\n' !in val
    requires Logical(ty) ==> Survives(ty, val)
    ensures LoadLine(prefix, SaveLine(prefix, ty, name, val) + "\n") == Assign(name, val) <==>
            Logical(ty) || ty == Text || (!StartsWith(val, "\"") && (val == "" || !White(val[|val| - 1])))
  {
    hide Escape, Unescape, SetMatch, UnsetMatch, Rstrip;
    var line := SaveLine(prefix, ty, name, val);
    StripNewline(line);
    if Logical(ty) {
      StripKeeps(line);
      if val == "n" {
        UnsetLineMatches(prefix, name);
      } else {
        SetLineMatches(prefix, name, val);
      }
    } else if ty == Text {
      StripKeeps(line);
      QuoteOneLine(val, '\n');
      SetLineMatches(prefix, name, Quote(val));
      UnquoteQuote(val);
    } else {
      NumberLine(prefix, name, val);
    }
  }

  // ---------- whole files ----------

  datatype Setting = Setting(ty: SymType, name: string, val: string)

  predicate Writable(e: Setting) {
    e.ty != Unknown && (Logical(e.ty) ==> Survives(e.ty, e.val))
  }

  predicate ComesBack(e: Setting) {
    Word(e.name) && Survives(e.ty, e.val)
  }

  function SaveAll(prefix: string, es: seq<Setting>): string
    requires forall i :: 0 <= i < |es| ==> Writable(es[i])
  {
    if es == [] then ""
    else
      assert Writable(es[0]);
      SaveLine(prefix, es[0].ty, es[0].name, es[0].val) + "\n" + SaveAll(prefix, es[1..])
  }

  function Assigns(es: seq<Setting>): seq<Loaded> {
    if es == [] then [] else [Assign(es[0].name, es[0].val)] + Assigns(es[1..])
  }

  lemma LoadFirst(prefix: string, lines: seq<string>)
    requires GetNext(lines, 0).Fed?
    ensures var fed := GetNext(lines, 0); var first := LoadLine(prefix, fed.line);
            LoadLines(prefix, lines) ==
              if first.Malformed? || LoadLines(prefix, lines[fed.next..]).None? then None
              else Some([first] + LoadLines(prefix, lines[fed.next..]).value)
  {
    hide LoadLine, GetNext;
  }

  lemma NothingFed(prefix: string, lines: seq<string>)
    requires lines != [] && !GetNext(lines, 0).Fed?
    ensures LoadLines(prefix, lines) == None
  {
  }

  lemma {:induction false} LoadedCount(prefix: string, lines: seq<string>)
    ensures LoadLines(prefix, lines).Some? ==> |LoadLines(prefix, lines).value| <= |lines|
    decreases |lines|
  {
    hide LoadLine;
    var fed := GetNext(lines, 0);
    if fed.Fed? { LoadedCount(prefix, lines[fed.next..]); }
  }

  predicate Plausible(l: Loaded) {
    l.Assign? ==> Word(l.name) && OneLine(l.val)
  }

  /** Whatever is loaded from a file, names are words and values are of one line. */
  lemma {:induction false} LoadedPlausible(prefix: string, lines: seq<string>)
    requires Clean(lines)
    ensures LoadLines(prefix, lines).Some? ==> forall l <- LoadLines(prefix, lines).value :: Plausible(l)
    decreases |lines|
  {
    hide LoadLine, Word, Joined;
    var fed := GetNext(lines, 0);
    if fed.Fed? {
      FedClean(lines);
      OnlyWordsAssigned(prefix, fed.line);
      OnlyOneLineAssigned(prefix, fed.line);
      LoadedPlausible(prefix, lines[fed.next..]);
      LoadFirst(prefix, lines);
    }
  }

  lemma {:induction false} AssignsAt(es: seq<Setting>)
    ensures |Assigns(es)| == |es| && forall i :: 0 <= i < |es| ==> Assigns(es)[i] == Assign(es[i].name, es[i].val)
  {
    if es != [] { AssignsAt(es[1..]); }
  }

  predicate Neat(es: seq<Setting>) {
    forall i :: 0 <= i < |es| ==> Word(es[i].name) && (Logical(es[i].ty) || OneLine(es[i].val))
  }

  lemma {:induction false} SavedNeatly(prefix: string, es: seq<Setting>)
    requires (forall c <- prefix :: WordChar(c)) && (forall i :: 0 <= i < |es| ==> Writable(es[i])) && Neat(es)
    ensures |Lines(SaveAll(prefix, es))| == |es|
    ensures es != [] ==> Lines(SaveAll(prefix, es))[1..] == Lines(SaveAll(prefix, es[1..]))
  {
    hide Lines, Survives, SaveLine, WordChar;
    if es != [] {
      SavedNeatly(prefix, es[1..]);
      SavedOneLine(prefix, es[0].ty, es[0].name, es[0].val) by { hide *; }
      FirstLine(SaveLine(prefix, es[0].ty, es[0].name, es[0].val), SaveAll(prefix, es[1..]));
    } else {
      NoLines();
    }
  }

  lemma NoLines()
    ensures Lines("") == []
  {
  }

  /** Writing settings and loading the file gives the same settings, in order, if and only if each of them
      comes back by itself. */
  lemma SavedFileLoads(prefix: string, es: seq<Setting>)
    requires (forall c <- prefix :: WordChar(c)) && forall i :: 0 <= i < |es| ==> Writable(es[i])
    ensures LoadLines(prefix, Lines(SaveAll(prefix, es))) == Some(Assigns(es)) <==>
            forall i :: 0 <= i < |es| ==> ComesBack(es[i])
  {
    if Neat(es) {
      NeatFileLoads(prefix, es);
    } else {
      hide Lines, LoadLines, SaveAll, WordChar, Word;
      LinesClean(SaveAll(prefix, es));
      LoadedPlausible(prefix, Lines(SaveAll(prefix, es)));
      AssignsAt(es);
      var i :| 0 <= i < |es| && !(Word(es[i].name) && (Logical(es[i].ty) || OneLine(es[i].val)));
      assert !Plausible(Assigns(es)[i]);
    }
  }

  lemma AllComeBack(es: seq<Setting>)
    requires es != []
    ensures (forall i :: 0 <= i < |es| ==> ComesBack(es[i])) <==>
            ComesBack(es[0]) && forall i :: 0 <= i < |es[1..]| ==> ComesBack(es[1..][i])
  {
    hide ComesBack;
    assert forall i :: 1 <= i < |es| ==> es[i] == es[1..][i - 1];
    assert forall i :: 0 <= i < |es| - 1 ==> es[1..][i] == es[i + 1];
  }

  lemma {:induction false} NeatFileLoads(prefix: string, es: seq<Setting>)
    requires (forall c <- prefix :: WordChar(c)) && (forall i :: 0 <= i < |es| ==> Writable(es[i])) && Neat(es)
    ensures LoadLines(prefix, Lines(SaveAll(prefix, es))) == Some(Assigns(es)) <==>
            forall i :: 0 <= i < |es| ==> ComesBack(es[i])
  {
    if es == [] {
      NoLines();
    } else {
      NeatFileLoads(prefix, es[1..]);
      FirstComesBack(prefix, es);
      AllComeBack(es);
    }
  }

  lemma FirstComesBack(prefix: string, es: seq<Setting>)
    requires (forall c <- prefix :: WordChar(c)) && (forall i :: 0 <= i < |es| ==> Writable(es[i])) && Neat(es)
    requires es != []
    ensures LoadLines(prefix, Lines(SaveAll(prefix, es))) == Some(Assigns(es)) <==>
            ComesBack(es[0]) && LoadLines(prefix, Lines(SaveAll(prefix, es[1..]))) == Some(Assigns(es[1..]))
  {
    hide Survives, SaveLine, LoadLine, GetNext, Word, WordChar, Lines, LoadLines, OneLine;
    var lines := Lines(SaveAll(prefix, es));
    SavedLineLoads(prefix, es[0].ty, es[0].name, es[0].val, SaveAll(prefix, es[1..]));
    SavedNeatly(prefix, es);
    AssignsAt(es);
    var fed := GetNext(lines, 0);
    if fed.Fed? {
      LoadFirst(prefix, lines);
      LoadedCount(prefix, lines[fed.next..]);
      var (first, more) := (LoadLine(prefix, fed.line), LoadLines(prefix, lines[fed.next..]));
      if more.Some? {
        assert ([first] + more.value)[0] == first && ([first] + more.value)[1..] == more.value;
        assert Assigns(es)[0] == Assign(es[0].name, es[0].val) && Assigns(es)[1..] == Assigns(es[1..]);
      }
    } else {
      NothingFed(prefix, lines);
    }
  }

  // ---------- what does not come back ----------

  lemma JoinedAtEnd(line: string)
    ensures !GetNext([line], 0).NoMore? && (GetNext([line], 0).Fed? ==> GetNext([line], 0).next == 1)
  {
  }

  /** The symbol "A-B" loses its value, a default "5\\" is no number, and a user value "5 " is one with a
      space after it. */
  lemma LostLines()
    ensures LoadLine("CONFIG_", SaveLine("CONFIG_", Text, "A-B", "x") + "\n") == Ignored
    ensures GetNext([SaveLine("CONFIG_", Int, "A", "5\\") + "\n"], 0) == PastEnd
    ensures LoadLine("CONFIG_", SaveLine("CONFIG_", Int, "A", "5 ") + "\n") != Assign("A", "5 ")
  {
    hide LoadLine, Rstrip, Escape, Joined, SetMatch, UnsetMatch;
    OtherNamesIgnored("CONFIG_", Text, "A-B", "x") by { assert "A-B"[1] == '-' && !WordChar('-'); }
    var line := SaveLine("CONFIG_", Int, "A", "5\\");
    assert line == "CONFIG_" + "A" + "=" + "5\\";
    JoinedOrNot([line + "\n"], line);
    JoinedAtEnd(line + "\n");
    SavedLineParsed("CONFIG_", Int, "A", "5 ");
  }

  lemma NothingToLoad(prefix: string)
    ensures LoadLines(prefix, []) == Some([])
  {
  }

  lemma {:induction false} NothingIntroduced(s: string, from: string, to: string, c: char)
    requires from != "" && c !in to && c !in s
    ensures c !in Replace(s, from, to)
  {
    if s != "" {
      NothingIntroduced(if StartsWith(s, from) then s[|from|..] else s[1..], from, to, c);
    }
  }

  lemma QuoteOneLine(val: string, c: char)
    requires c !in val && (c == '\n' || c == '\r')
    ensures c !in Quote(val)
  {
    NothingIntroduced(val, "\\", "\\\\", c);
    NothingIntroduced(Replace(val, "\\", "\\\\"), "\"", "\\\"", c);
  }

  lemma StripNewline(line: string)
    ensures Rstrip(line + "\n") == Rstrip(line)
  {
    assert (line + "\n")[..|line|] == line;
  }

  lemma StripKeeps(line: string)
    requires line != "" && !White(line[|line| - 1])
    ensures Rstrip(line) == line
  {
  }

  /** Stripping never goes beyond the "=" of a line. */
  lemma {:induction false} StripStops(head: string, val: string)
    requires head != "" && !White(head[|head| - 1])
    ensures Rstrip(head + val) == head + Rstrip(val)
    ensures |Rstrip(val)| <= |val| && Rstrip(val) == val[..|Rstrip(val)|]
            && (Rstrip(val) == val <==> val == "" || !White(val[|val| - 1]))
  {
    var line := head + val;
    if val == "" {
      assert line == head;
    } else if White(val[|val| - 1]) {
      var init := val[..|val| - 1];
      assert line[..|line| - 1] == head + init;
      StripStops(head, init);
    }
  }

  lemma {:induction false} ReplaceShortens(s: string, from: string, to: string)
    requires from != "" && |to| <= |from|
    ensures |Replace(s, from, to)| <= |s|
  {
    if s != "" { ReplaceShortens(if StartsWith(s, from) then s[|from|..] else s[1..], from, to); }
  }

  lemma UnquoteShortens(val: string)
    ensures Unquote(val).Some? ==> |Unquote(val).value| <= |val|
    ensures Unquote(val) == Some(val) <==> !StartsWith(val, "\"")
  {
    if StartsWith(val, "\"") && |val| >= 2 && val[|val| - 1] == '"' {
      var w := val[1..|val| - 1];
      ReplaceShortens(w, "\\\"", "\"");
      ReplaceShortens(Replace(w, "\\\"", "\""), "\\\\", "\\");
    }
  }

  lemma {:induction false} StripSubset(s: string, c: char)
    requires c !in s
    ensures c !in Rstrip(s)
  {
    if s != "" && White(s[|s| - 1]) { StripSubset(s[..|s| - 1], c); }
  }

  lemma {:induction false} StripTail(s: string, tail: string)
    requires forall c <- tail :: White(c)
    ensures Rstrip(s + tail) == Rstrip(s)
  {
    if tail == "" {
      assert s + tail == s;
    } else {
      var n := |tail| - 1;
      assert (s + tail)[..|s| + n] == s + tail[..n];
      StripTail(s, tail[..n]);
    }
  }

  /** Reading a line with a word as its name, whatever white space ends it: a value without a quote is taken as it
      is, a string needs both quotes, and escapes are undone. */
  lemma ReadForms(prefix: string, name: string, val: string, tail: string)
    requires Word(name) && '\n' !in val && (forall c <- tail :: White(c)) && (val == "" || !White(val[|val| - 1]))
    ensures var read := LoadLine(prefix, prefix + name + "=" + val + tail);
            && (val == "" || val[0] != '"' ==> read == Assign(name, val))
            && (val != "" && val[0] == '"' ==> (read == Malformed <==> |val| == 1 || val[|val| - 1] != '"'))
            && (forall u :: val == "\"" + Escape(u) + "\"" ==> read == Assign(name, u))
            && (forall u :: Plain(u) && val == "\"" + u + "\"" ==> read == Assign(name, u))
  {
    hide SetMatch, Unquote;
    StripTail(prefix + name + "=" + val, tail);
    StripStops(prefix + name + "=", val);
    SetLineMatches(prefix, name, val);
    forall u ensures val == "\"" + Escape(u) + "\"" ==> Unquote(val) == Some(u) { UnquoteQuote(u); }
    forall u | Plain(u) ensures Escape(u) == u { PlainEscape(u); }
    QuotesNeeded(val);
    hide Escape, Rstrip;
  }

  lemma QuotesNeeded(val: string)
    ensures val == "" || val[0] != '"' ==> Unquote(val) == Some(val)
    ensures val != "" && val[0] == '"' ==> (Unquote(val) == None <==> |val| == 1 || val[|val| - 1] != '"')
  {
    assert val != "" ==> val[..1] == [val[0]];
  }

  /** A line that says that a word is not set gives "n". */
  lemma ReadUnset(prefix: string, name: string, tail: string)
    requires Word(name) && (prefix == "" || WordChar(prefix[0])) && forall c <- tail :: White(c)
    ensures LoadLine(prefix, "# " + prefix + name + " is not set" + tail) == Assign(name, "n")
  {
    hide SetMatch, UnsetMatch;
    var line := "# " + prefix + name + " is not set";
    StripTail(line, tail);
    StripKeeps(line);
    UnsetLineMatches(prefix, name);
  }

  lemma NumberLine(prefix: string, name: string, val: string)
    requires Word(name) && '\n' !in val
    ensures LoadLine(prefix, prefix + name + "=" + val) == Assign(name, val)
       <==> !StartsWith(val, "\"") && (val == "" || !White(val[|val| - 1]))
  {
    hide Unquote, SetMatch;
    StripStops(prefix + name + "=", val);
    StripSubset(val, '\n');
    SetLineMatches(prefix, name, Rstrip(val));
    UnquoteShortens(Rstrip(val));
    UnquoteShortens(val);
  }
}
