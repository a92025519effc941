/**
 Reading /proc/<pid>/mountinfo. A character stands for one byte of the file.
 */
module MountInfo {
  import opened OutputLines

  // ----- escaped fields -----

  predicate IsOctal(c: char) {
    '0' <= c <= '7'
  }

  /** Three octal digits as a byte: the code modulo 256. */
  function OctalByte(a: char, b: char, c: char): char
    requires IsOctal(a) && IsOctal(b) && IsOctal(c)
  {
    (((a as int - '0' as int) * 64 + (b as int - '0' as int) * 8 + (c as int - '0' as int)) % 256) as char
  }

  predicate StartsEscape(s: string) {
    |s| > 3 && s[0] == '\\' && IsOctal(s[1]) && IsOctal(s[2]) && IsOctal(s[3])
  }

  function Unescape(s: string): string
    decreases |s|
  {
    if s == "" then ""
    else if StartsEscape(s) then [OctalByte(s[1], s[2], s[3])] + Unescape(s[4..])
    else [s[0]] + Unescape(s[1..])
  }

  method UnescapeMountField(s: string) returns (r: string)
    ensures r == Unescape(s)
  {
    if '\\' !in s {
      VerbatimWithoutBackslash(s);
      return s;
    }
    r := "";
    var i := 0;
    while i < |s|
      invariant i <= |s| && r + Unescape(s[i..]) == Unescape(s)
    {
      UnescapeStep(s, i, r);
      if s[i] == '\\' && i + 3 < |s| && IsOctal(s[i + 1]) && IsOctal(s[i + 2]) && IsOctal(s[i + 3]) {
        r := r + [OctalByte(s[i + 1], s[i + 2], s[i + 3])];
        i := i + 3;
      } else {
        r := r + [s[i]];
      }
      i := i + 1;
    }
  }

  lemma UnescapeStep(s: string, i: nat, r: string)
    requires i < |s|
    ensures if StartsEscape(s[i..]) then
              && s[i] == '\\' && i + 3 < |s| && IsOctal(s[i + 1]) && IsOctal(s[i + 2]) && IsOctal(s[i + 3])
              && r + [OctalByte(s[i + 1], s[i + 2], s[i + 3])] + Unescape(s[i + 4..]) == r + Unescape(s[i..])
            else
              && !(s[i] == '\\' && i + 3 < |s| && IsOctal(s[i + 1]) && IsOctal(s[i + 2]) && IsOctal(s[i + 3]))
              && r + [s[i]] + Unescape(s[i + 1..]) == r + Unescape(s[i..])
  {
    var rest := s[i..];
    if StartsEscape(rest) {
      assert rest[4..] == s[i + 4..];
      Regroup(r, [OctalByte(s[i + 1], s[i + 2], s[i + 3])], Unescape(s[i + 4..]));
    } else {
      assert rest[1..] == s[i + 1..];
      Regroup(r, [s[i]], Unescape(s[i + 1..]));
    }
  }

  lemma Regroup(a: string, b: string, c: string)
    ensures a + b + c == a + (b + c)
  {
  }

  lemma {:induction false} VerbatimWithoutBackslash(s: string)
    requires '\\' !in s
    ensures Unescape(s) == s
  {
    if s != "" {
      VerbatimWithoutBackslash(s[1..]);
    }
  }

  function OctalDigit(n: int): char
    requires 0 <= n < 8
  {
    (n + '0' as int) as char
  }

  function EscapedByte(c: char): string
    requires c as int < 256
  {
    ['\\', OctalDigit(c as int / 64), OctalDigit(c as int / 8 % 8), OctalDigit(c as int % 8)]
  }

  /** The bytes a writer of mountinfo may escape: the backslash at least. */
  predicate Escapable(special: set<char>) {
    '\\' in special && forall c | c in special :: c as int < 256
  }

  function Escape(special: set<char>, s: string): string
    requires Escapable(special)
  {
    if s == "" then ""
    else (if s[0] in special then EscapedByte(s[0]) else [s[0]]) + Escape(special, s[1..])
  }

  lemma UnescapeEscapedByte(c: char, rest: string)
    requires c as int < 256
    ensures Unescape(EscapedByte(c) + rest) == [c] + Unescape(rest)
  {
    var s := EscapedByte(c) + rest;
    assert s[4..] == rest;
    OctalDigitsOfByte(c);
    assert s[0] == EscapedByte(c)[0] && s[1] == EscapedByte(c)[1] && s[2] == EscapedByte(c)[2] && s[3] == EscapedByte(c)[3];
  }

  lemma OctalDigitsOfByte(c: char)
    requires c as int < 256
    ensures var e := EscapedByte(c);
            e[0] == '\\' && IsOctal(e[1]) && IsOctal(e[2]) && IsOctal(e[3]) && OctalByte(e[1], e[2], e[3]) == c
  {
    OctalSum(c as int);
    var a, b, d := c as int / 64, c as int / 8 % 8, c as int % 8;
    assert OctalDigit(a) as int - '0' as int == a && OctalDigit(b) as int - '0' as int == b && OctalDigit(d) as int - '0' as int == d;
  }

  lemma OctalSum(n: int)
    requires 0 <= n < 256
    ensures n / 64 * 64 + n / 8 % 8 * 8 + n % 8 == n && n / 64 < 8
  {
    assert n == n / 8 * 8 + n % 8;
    assert n / 8 == n / 8 / 8 * 8 + n / 8 % 8;
  }

  lemma UnescapeOther(c: char, rest: string)
    requires c != '\\'
    ensures Unescape([c] + rest) == [c] + Unescape(rest)
  {
    assert ([c] + rest)[1..] == rest;
  }

  /** Unescaping inverts every escaping that includes the backslash, for every byte string. */
  lemma {:induction false} UnescapeInvertsEscape(special: set<char>, s: string)
    requires Escapable(special)
    ensures Unescape(Escape(special, s)) == s
  {
    if s != "" {
      UnescapeInvertsEscape(special, s[1..]);
      if s[0] in special {
        UnescapeEscapedByte(s[0], Escape(special, s[1..]));
      } else {
        UnescapeOther(s[0], Escape(special, s[1..]));
      }
    }
  }

  // ----- words between white space -----

  /** The width of the white space a text starts with: an ASCII byte, or the UTF-8 form of a Unicode space. */
  function SpaceWidth(s: string): (width: nat)
    ensures width <= |s|
  {
    if |s| > 0 && ('\t' <= s[0] <= '\r' || s[0] == ' ') then 1
    else if |s| > 1 && s[0] == '\U{C2}' && (s[1] == '\U{85}' || s[1] == '\U{A0}') then 2
    else if |s| > 2 && IsWideSpace(s[0], s[1], s[2]) then 3
    else 0
  }

  predicate IsWideSpace(a: char, b: char, c: char) {
    || (a == '\U{E1}' && b == '\U{9A}' && c == '\U{80}')
    || (a == '\U{E2}' && b == '\U{80}' && ('\U{80}' <= c <= '\U{8A}' || c == '\U{A8}' || c == '\U{A9}' || c == '\U{AF}'))
    || (a == '\U{E2}' && b == '\U{81}' && c == '\U{9F}')
    || (a == '\U{E3}' && b == '\U{80}' && c == '\U{80}')
  }

  function Pending(word: string): seq<string> {
    if word == "" then [] else [word]
  }

  /** The words of a text around white space, the first of them already begun. */
  function WordsAfter(word: string, s: string): seq<string>
    decreases |s|
  {
    if s == "" then Pending(word)
    else if SpaceWidth(s) > 0 then Pending(word) + WordsAfter("", s[SpaceWidth(s)..])
    else WordsAfter(word + [s[0]], s[1..])
  }

  function Words(s: string): seq<string> {
    WordsAfter("", s)
  }

  /** The bytes of a code point below 0x10000. */
  function Utf8(point: nat): (bytes: string)
    requires point < 0x1_0000
  {
    if point < 0x80 then [point as char]
    else if point < 0x800 then [(0xC0 + point / 0x40) as char, (0x80 + point % 0x40) as char]
    else [(0xE0 + point / 0x1000) as char, (0x80 + point / 0x40 % 0x40) as char, (0x80 + point % 0x40) as char]
  }

  /** The white space of Unicode. */
  predicate IsUnicodeSpace(point: nat) {
    || 9 <= point <= 13 || point == 0x20 || point == 0x85 || point == 0xA0 || point == 0x1680
    || 0x2000 <= point <= 0x200A || point in {0x2028, 0x2029, 0x202F, 0x205F, 0x3000}
  }

  /** A text starts with white space if and only if its first code point is a space, and is as wide as that. */
  lemma SpacesAreUnicodeSpaces(point: nat, rest: string)
    requires point < 0x1_0000
    ensures SpaceWidth(Utf8(point) + rest) == if IsUnicodeSpace(point) then |Utf8(point)| else 0
  {
    var s, n := Utf8(point) + rest, |Utf8(point)|;
    assert forall i | 0 <= i < n :: s[i] == Utf8(point)[i];
  }

  predicate Spaceless(s: string)
    decreases |s|
  {
    s == "" || (SpaceWidth(s) == 0 && Spaceless(s[1..]))
  }

  predicate IsWord(s: string) {
    s != "" && Spaceless(s)
  }

  /** White space does not begin before the text that begins with it. */
  lemma SpaceDoesNotReachBack(s: string, t: string)
    requires s != "" && SpaceWidth(s) == 0 && SpaceWidth(t) > 0
    ensures SpaceWidth(s + t) == 0
  {
    assert forall i | 0 <= i < |s| :: (s + t)[i] == s[i];
    assert (s + t)[|s|] == t[0];
  }

  lemma WordGoesOn(begun: string, word: string, rest: string)
    requires word != "" && SpaceWidth(word) == 0 && SpaceWidth(rest) > 0
    ensures WordsAfter(begun, word + rest) == WordsAfter(begun + [word[0]], word[1..] + rest)
  {
    assert (word + rest)[1..] == word[1..] + rest;
    SpaceDoesNotReachBack(word, rest);
  }

  lemma {:induction false} WordEndsAtSpace(begun: string, word: string, rest: string)
    requires Spaceless(word) && begun + word != "" && SpaceWidth(rest) > 0
    ensures WordsAfter(begun, word + rest) == [begun + word] + Words(rest[SpaceWidth(rest)..])
    decreases |word|
  {
    if word == "" {
      assert begun + word == begun && word + rest == rest;
    } else {
      WordGoesOn(begun, word, rest);
      Regroup(begun, [word[0]], word[1..]);
      assert [word[0]] + word[1..] == word;
      WordEndsAtSpace(begun + [word[0]], word[1..], rest);
    }
  }

  lemma WordThenSpace(word: string, rest: string)
    requires IsWord(word)
    ensures Words(word + ([' '] + rest)) == [word] + Words(rest)
  {
    WordEndsAtSpace("", word, [' '] + rest);
    assert "" + word == word && ([' '] + rest)[1..] == rest;
  }

  lemma {:induction false} WordAtEnd(begun: string, word: string)
    requires Spaceless(word) && begun + word != ""
    ensures WordsAfter(begun, word) == [begun + word]
    decreases |word|
  {
    if word == "" {
      assert begun + word == begun;
    } else {
      WordAtEnd(begun + [word[0]], word[1..]);
      assert begun + [word[0]] + word[1..] == begun + word;
    }
  }

  function Join(fields: seq<string>): string {
    if fields == [] then ""
    else if |fields| == 1 then fields[0]
    else fields[0] + ([' '] + Join(fields[1..]))
  }

  /** Words joined by spaces are found again. */
  lemma {:induction false} WordsOfJoin(fields: seq<string>)
    requires forall i | 0 <= i < |fields| :: IsWord(fields[i])
    ensures Words(Join(fields)) == fields
    decreases |fields|
  {
    if fields != [] {
      if |fields| == 1 {
        WordAtEnd("", fields[0]);
        assert "" + fields[0] == fields[0];
      } else {
        WordsOfJoin(fields[1..]);
        WordThenSpace(fields[0], Join(fields[1..]));
      }
    }
  }

  lemma {:induction false} SpacelessBytes(s: string)
    requires Spaceless(s)
    ensures forall c | c in s :: c != '\n' && c != '\r'
    decreases |s|
  {
    if s != "" {
      SpacelessBytes(s[1..]);
      assert s == [s[0]] + s[1..];
    }
  }

  lemma {:induction false} JoinIsOneLine(fields: seq<string>)
    requires forall i | 0 <= i < |fields| :: IsWord(fields[i])
    ensures forall c | c in Join(fields) :: c != '\n' && c != '\r'
    decreases |fields|
  {
    if fields != [] {
      SpacelessBytes(fields[0]);
      JoinIsOneLine(fields[1..]);
    }
  }

  // ----- lines of mountinfo -----

  datatype Entry = Entry(
    device: string,
    root: string,
    mountpoint: string,
    options: string,
    fstype: string,
    source: string)

  /** A whole line: what the driver reads of it, and the rest. */
  datatype Line = Line(id: string, parent: string, entry: Entry, optional: seq<string>, superOptions: string)

  /** The first separator at or after an index; the length when there is none. */
  function FirstDash(fields: seq<string>, from: nat): (i: nat)
    requires from <= |fields|
    ensures from <= i <= |fields|
    decreases |fields| - from
  {
    if from == |fields| || fields[from] == "-" then from else FirstDash(fields, from + 1)
  }

  function FieldAt(fields: seq<string>, i: nat): string {
    if i < |fields| then fields[i] else ""
  }

  function EntryOf(fields: seq<string>): Entry
    requires |fields| >= 7
  {
    var sep := FirstDash(fields, 6);
    Entry(fields[2], Unescape(fields[3]), Unescape(fields[4]), fields[5],
          FieldAt(fields, sep + 1), FieldAt(fields, sep + 2))
  }

  function EntriesOf(lines: seq<string>): seq<Entry> {
    if lines == [] then []
    else
      var fields := Words(lines[|lines| - 1]);
      EntriesOf(lines[..|lines| - 1]) + if |fields| < 7 then [] else [EntryOf(fields)]
  }

  method ParseMountInfoReader(text: string) returns (entries: seq<Entry>)
    ensures entries == EntriesOf(LinesOf(text))
  {
    entries := [];
    var lines := LinesOf(text);
    assert lines == lines[..|lines|];
    for k := 0 to |lines|
      invariant entries == EntriesOf(lines[..k])
    {
      assert lines[..k + 1][..k] == lines[..k];
      var fields := Words(lines[k]);
      if |fields| < 7 {
        continue;
      }
      var entry := ParseFields(fields);
      entries := entries + [entry];
    }
  }

  method ParseFields(fields: seq<string>) returns (entry: Entry)
    requires |fields| >= 7
    ensures entry == EntryOf(fields)
  {
    var root := UnescapeMountField(fields[3]);
    var mountpoint := UnescapeMountField(fields[4]);
    var sep := -1;
    for i := 6 to |fields|
      invariant sep == -1 && FirstDash(fields, i) == FirstDash(fields, 6)
    {
      if fields[i] == "-" {
        sep := i;
        break;
      }
    }
    var fstype, source := "", "";
    if sep >= 0 && sep + 1 < |fields| {
      fstype := fields[sep + 1];
    }
    if sep >= 0 && sep + 2 < |fields| {
      source := fields[sep + 2];
    }
    entry := Entry(fields[2], root, mountpoint, fields[5], fstype, source);
  }

  // ----- printing and reading back -----

  const PATH_SPECIALS: set<char> := {' ', '\t', '\n', '\\'}

  /** A path whose only white space is escaped when it is printed. */
  predicate Printable(path: string) {
    path != "" && EscapedIsSpaceless(path)
  }

  predicate EscapedIsSpaceless(path: string)
    decreases |path|
  {
    path == "" || ((path[0] in PATH_SPECIALS || SpaceWidth(path) == 0) && EscapedIsSpaceless(path[1..]))
  }

  lemma {:induction false} EscapedPathIsWord(path: string)
    requires EscapedIsSpaceless(path)
    ensures Spaceless(Escape(PATH_SPECIALS, path)) && |Escape(PATH_SPECIALS, path)| >= |path|
    decreases |path|
  {
    if path != "" {
      EscapedPathIsWord(path[1..]);
      var escaped, rest := Escape(PATH_SPECIALS, path), Escape(PATH_SPECIALS, path[1..]);
      if path[0] in PATH_SPECIALS {
        SpacelessAfterEscape(path[0], rest);
      } else {
        assert escaped[1..] == rest;
        EscapeKeepsSpaceWidth(path);
      }
    }
  }

  lemma SpacelessAfterEscape(c: char, rest: string)
    requires c as int < 256 && Spaceless(rest)
    ensures Spaceless(EscapedByte(c) + rest)
  {
    var s := EscapedByte(c) + rest;
    assert s[4..] == rest && s[1..][1..] == s[2..] && s[2..][1..] == s[3..] && s[3..][1..] == s[4..];
    assert SpaceWidth(s) == 0 && SpaceWidth(s[1..]) == 0 && SpaceWidth(s[2..]) == 0 && SpaceWidth(s[3..]) == 0;
    assert Spaceless(s[4..]) && Spaceless(s[3..]) && Spaceless(s[2..]) && Spaceless(s[1..]);
  }

  /** Escaping does not turn bytes into the UTF-8 form of a space. */
  lemma EscapeKeepsSpaceWidth(path: string)
    requires path != "" && path[0] !in PATH_SPECIALS && SpaceWidth(path) == 0
    ensures SpaceWidth(Escape(PATH_SPECIALS, path)) == 0
  {
    var tail := path[1..];
    if tail != "" && tail[0] !in PATH_SPECIALS {
      assert Escape(PATH_SPECIALS, tail)[0] == tail[0];
      if |tail| > 1 {
        assert Escape(PATH_SPECIALS, tail[1..])[0] == tail[1] || Escape(PATH_SPECIALS, tail[1..])[0] == '\\';
      }
    }
  }

  predicate Readable(line: Line) {
    RestReadable(line) && Printable(line.entry.root) && Printable(line.entry.mountpoint)
  }

  /** Readable but for the two paths. */
  predicate RestReadable(line: Line) {
    var e := line.entry;
    && IsWord(line.id) && IsWord(line.parent) && IsWord(e.device)
    && IsWord(e.options) && IsWord(e.fstype) && IsWord(e.source) && IsWord(line.superOptions)
    && forall i | 0 <= i < |line.optional| :: IsWord(line.optional[i]) && line.optional[i] != "-"
  }

  function LineFields(line: Line): seq<string> {
    var e := line.entry;
    [line.id, line.parent, e.device, Escape(PATH_SPECIALS, e.root), Escape(PATH_SPECIALS, e.mountpoint), e.options]
    + line.optional + ["-", e.fstype, e.source, line.superOptions]
  }

  function Printed(lines: seq<Line>): seq<string> {
    seq(|lines|, i requires 0 <= i < |lines| => Join(LineFields(lines[i])))
  }

  function Entries(lines: seq<Line>): seq<Entry> {
    seq(|lines|, i requires 0 <= i < |lines| => lines[i].entry)
  }

  lemma {:induction false} DashIsFound(fields: seq<string>, from: nat, sep: nat)
    requires from <= sep < |fields| && fields[sep] == "-"
    requires forall i | from <= i < sep :: fields[i] != "-"
    ensures FirstDash(fields, from) == sep
    decreases sep - from
  {
    if from < sep {
      DashIsFound(fields, from + 1, sep);
    }
  }

  lemma FieldsAreWords(line: Line)
    requires Readable(line)
    ensures forall i | 0 <= i < |LineFields(line)| :: IsWord(LineFields(line)[i])
  {
    EscapedPathIsWord(line.entry.root);
    EscapedPathIsWord(line.entry.mountpoint);
    DashIsWord();
  }

  lemma DashIsWord()
    ensures IsWord("-")
  {
    assert "-"[1..] == "" && SpaceWidth("-") == 0;
  }

  lemma FieldsReadBack(line: Line)
    requires Readable(line)
    ensures EntryOf(LineFields(line)) == line.entry
  {
    DashIsFound(LineFields(line), 6, 6 + |line.optional|);
    UnescapeInvertsEscape(PATH_SPECIALS, line.entry.root);
    UnescapeInvertsEscape(PATH_SPECIALS, line.entry.mountpoint);
  }

  /** One printed line is read back, whatever its optional fields. */
  lemma LineReadBack(line: Line)
    requires Readable(line)
    ensures var text := Join(LineFields(line));
            && |Words(text)| >= 7 && EntryOf(Words(text)) == line.entry
            && TrimCR(text) == text && '\n' !in text
  {
    ghost var text := Join(LineFields(line));
    assert text != "" ==> text[|text| - 1] in text;
    FieldsAreWords(line);
    FieldsReadBack(line);
    WordsOfJoin(LineFields(line));
    JoinIsOneLine(LineFields(line));
  }

  lemma ScanOneLine(line: string)
    requires '\n' !in line
    ensures Scan("", line + "\n").lines == [line] && Scan("", line + "\n").rest == ""
  {
    ScanWithoutNewline("", line);
    assert (line + "\n")[..|line|] == line && "" + line == line;
  }

  lemma {:induction false} LinesOfUnlines(lines: seq<string>)
    requires forall i | 0 <= i < |lines| :: '\n' !in lines[i]
    ensures Scan("", Unlines(lines)).lines == lines && Scan("", Unlines(lines)).rest == ""
  {
    if lines != [] {
      var front, last := lines[..|lines| - 1], lines[|lines| - 1];
      LinesOfUnlines(front);
      ScanAppend("", Unlines(front), last + "\n");
      ScanOneLine(last);
      Regroup(Unlines(front), last, "\n");
      assert front + [last] == lines;
    }
  }

  lemma PrintedFront(lines: seq<Line>)
    requires lines != []
    ensures var n := |lines| - 1;
            Printed(lines)[..n] == Printed(lines[..n]) && Entries(lines) == Entries(lines[..n]) + [lines[n].entry]
  {
  }

  lemma {:induction false} EntriesReadBack(lines: seq<Line>)
    requires forall i | 0 <= i < |lines| :: Readable(lines[i])
    ensures EntriesOf(Printed(lines)) == Entries(lines)
  {
    if lines != [] {
      var n := |lines| - 1;
      EntriesReadBack(lines[..n]);
      LineReadBack(lines[n]);
      PrintedFront(lines);
    }
  }

  /** Reading mountinfo inverts printing it, for every list of lines with any optional fields. */
  lemma ParseInvertsPrint(lines: seq<Line>)
    requires forall i | 0 <= i < |lines| :: Readable(lines[i])
    ensures EntriesOf(LinesOf(Unlines(Printed(lines)))) == Entries(lines)
  {
    forall i | 0 <= i < |lines|
      ensures '\n' !in Printed(lines)[i] && TrimCR(Printed(lines)[i]) == Printed(lines)[i]
    {
      LineReadBack(lines[i]);
    }
    LinesOfUnlines(Printed(lines));
    NothingToTrim(Printed(lines));
    EntriesReadBack(lines);
  }

  lemma NothingToTrim(lines: seq<string>)
    requires forall i | 0 <= i < |lines| :: TrimCR(lines[i]) == lines[i]
    ensures TrimAll(lines) + FlushedLines("") == lines
  {
  }

  // ----- which paths are read back -----

  /** Where the first white space begins that printing does not escape. */
  lemma {:induction false} FirstPlainSpace(path: string) returns (k: nat)
    requires !EscapedIsSpaceless(path)
    ensures k < |path| && path[k] !in PATH_SPECIALS && SpaceWidth(path[k..]) > 0 && EscapedIsSpaceless(path[..k])
    decreases |path|
  {
    if path[0] !in PATH_SPECIALS && SpaceWidth(path) > 0 {
      k := 0;
      assert path[0..] == path;
    } else {
      var rest := FirstPlainSpace(path[1..]);
      k := rest + 1;
      assert path[k..] == path[1..][rest..] && path[..k][1..] == path[1..][..rest];
      if SpaceWidth(path) == 0 {
        SpaceWidthOfFront(path, k);
      }
    }
  }

  lemma SpaceWidthOfFront(s: string, k: nat)
    requires 0 < k <= |s| && SpaceWidth(s) == 0
    ensures SpaceWidth(s[..k]) == 0
  {
  }

  lemma SpaceWidthOfLonger(s: string, t: string)
    requires SpaceWidth(s) > 0
    ensures SpaceWidth(s + t) == SpaceWidth(s)
  {
  }

  lemma {:induction false} EscapeAppend(a: string, b: string)
    ensures Escape(PATH_SPECIALS, a + b) == Escape(PATH_SPECIALS, a) + Escape(PATH_SPECIALS, b)
  {
    if a == "" {
      assert a + b == b;
    } else {
      EscapeAppend(a[1..], b);
      assert (a + b)[1..] == a[1..] + b;
      Regroup(if a[0] in PATH_SPECIALS then EscapedByte(a[0]) else [a[0]], Escape(PATH_SPECIALS, a[1..]), Escape(PATH_SPECIALS, b));
    }
  }

  /** Printing keeps white space that it does not escape. */
  lemma PlainSpaceIsKept(s: string)
    requires SpaceWidth(s) > 0 && s[0] !in PATH_SPECIALS
    ensures SpaceWidth(Escape(PATH_SPECIALS, s)) > 0
  {
    var escaped := Escape(PATH_SPECIALS, s);
    assert escaped[0] == s[0];
    if SpaceWidth(s) > 1 {
      assert Escape(PATH_SPECIALS, s[1..])[0] == s[1] && escaped[1] == s[1];
      if SpaceWidth(s) > 2 {
        assert Escape(PATH_SPECIALS, s[1..][1..])[0] == s[2] && escaped[2] == s[2];
      }
    }
  }

  lemma FirstOfMany(fields: seq<string>, n: nat, rest: seq<string>)
    requires 0 < n <= |fields|
    ensures [fields[0]] + (fields[1..][..n - 1] + rest) == fields[..n] + rest
  {
  }

  /** Leading words are found whatever follows them. */
  lemma {:induction false} LeadingWords(fields: seq<string>, n: nat)
    requires n < |fields| && forall i | 0 <= i < n :: IsWord(fields[i])
    ensures Words(Join(fields)) == fields[..n] + Words(Join(fields[n..]))
    decreases n
  {
    if n > 0 {
      LeadingWords(fields[1..], n - 1);
      WordThenSpace(fields[0], Join(fields[1..]));
      assert fields[1..][n - 1..] == fields[n..];
      FirstOfMany(fields, n, Words(Join(fields[n..])));
    } else {
      assert fields[0..] == fields;
    }
  }

  /** A field cut short by white space of its own. */
  lemma FieldIsCut(fields: seq<string>, n: nat, word: string, tail: string)
    requires n < |fields| - 1 && forall i | 0 <= i < n :: IsWord(fields[i])
    requires fields[n] == word + tail && IsWord(word) && SpaceWidth(tail) > 0
    ensures |Words(Join(fields))| > n && Words(Join(fields))[n] == word
  {
    LeadingWords(fields, n);
    var rest := [' '] + Join(fields[n + 1..]);
    assert fields[n..][1..] == fields[n + 1..];
    Regroup(word, tail, rest);
    SpaceWidthOfLonger(tail, rest);
    assert "" + word == word;
    WordEndsAtSpace("", word, tail + rest);
  }

  /** An absolute path that is printed with white space of its own is cut short there. */
  lemma PathIsCut(fields: seq<string>, n: nat, path: string)
    requires n < |fields| - 1 && forall i | 0 <= i < n :: IsWord(fields[i])
    requires "/" <= path && !Printable(path) && fields[n] == Escape(PATH_SPECIALS, path)
    ensures var words := Words(Join(fields)); |words| > n && Unescape(words[n]) != path
  {
    var k := FirstPlainSpace(path);
    var word, tail := Escape(PATH_SPECIALS, path[..k]), Escape(PATH_SPECIALS, path[k..]);
    assert path == path[..k] + path[k..];
    EscapeAppend(path[..k], path[k..]);
    EscapedPathIsWord(path[..k]);
    PlainSpaceIsKept(path[k..]);
    UnescapeInvertsEscape(PATH_SPECIALS, path[..k]);
    assert k > 0 by {
      assert path[0] == '/' && SpaceWidth(path) == 0;
      assert path[0..] == path;
    }
    FieldIsCut(fields, n, word, tail);
  }

  /**
   Which paths survive: a printed line with an absolute root and an absolute mountpoint is read back
   if and only if every white space in both of them is a space, a tab or a newline.
   */
  lemma ReadBackIffPrintable(line: Line)
    requires RestReadable(line) && "/" <= line.entry.root && "/" <= line.entry.mountpoint
    ensures var words := Words(Join(LineFields(line)));
            (|words| >= 7 && EntryOf(words) == line.entry) <==> Printable(line.entry.root) && Printable(line.entry.mountpoint)
  {
    if !Printable(line.entry.root) {
      PathIsCut(LineFields(line), 3, line.entry.root);
    } else if !Printable(line.entry.mountpoint) {
      EscapedPathIsWord(line.entry.root);
      PathIsCut(LineFields(line), 4, line.entry.mountpoint);
    } else {
      LineReadBack(line);
    }
  }
}
