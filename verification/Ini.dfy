/** INI printing (internal/common/config/config.go) against what oslo.config reads
    back, and the socket-timeout decision taken from the map instead of the file
    (internal/common/database/connection.go). */
module Ini {
  import opened Text

  type Sections = map<string, map<string, string>>
  type MultiSections = map<string, map<string, seq<string>>>

  // ---- what is printed ---------------------------------------------------------------

  datatype Line = Blank | Header(name: string) | Entry(block: string, key: string, val: string)

  function Show(l: Line): string {
    match l
    case Blank => ""
    case Header(name) => "[" + name + "]"
    case Entry(_, key, val) => key + " = " + val
  }

  function Print(lines: seq<Line>): string {
    if lines == [] then "" else Show(lines[0]) + ['\n'] + Print(lines[1..])
  }

  function KeyLines(block: string, key: string, values: seq<string>): seq<Line> {
    if values == [] then []
    else KeyLines(block, key, values[..|values| - 1]) + [Entry(block, key, values[|values| - 1])]
  }

  function EntryLines(block: string, keys: seq<string>, kvs: map<string, seq<string>>): seq<Line>
    requires forall k :: k in keys ==> k in kvs
  {
    if keys == [] then []
    else
      var n := |keys| - 1;
      EntryLines(block, keys[..n], kvs) + KeyLines(block, keys[n], kvs[keys[n]])
  }

  ghost function SectionLines(name: string, kvs: map<string, seq<string>>): seq<Line> {
    [Header(name)] + EntryLines(name, SortedKeys(kvs.Keys), kvs)
  }

  /** The lines of the sections named, a blank one before every section but the
      first. */
  ghost function FileOf(names: seq<string>, sections: MultiSections): seq<Line>
    requires forall n :: n in names ==> n in sections
  {
    if names == [] then []
    else
      var n := |names| - 1;
      FileOf(names[..n], sections) + ((if n > 0 then [Blank] else []) + SectionLines(names[n], sections[names[n]]))
  }

  ghost function File(sections: MultiSections): seq<Line> { FileOf(SortedKeys(sections.Keys), sections) }

  lemma PrintFirst(a: seq<Line>, b: seq<Line>)
    requires a != []
    ensures Print(a + b) == Show(a[0]) + ['\n'] + Print(a[1..] + b)
  {
    assert (a + b)[1..] == a[1..] + b;
  }

  lemma {:induction false} PrintAppend(a: seq<Line>, b: seq<Line>)
    ensures Print(a + b) == Print(a) + Print(b)
  {
    if a == [] {
      assert a + b == b;
    } else {
      calc {
        Print(a + b);
      == { PrintFirst(a, b); }
        Show(a[0]) + ['\n'] + Print(a[1..] + b);
      == { PrintAppend(a[1..], b); }
        Show(a[0]) + ['\n'] + (Print(a[1..]) + Print(b));
      == { Regroup(Show(a[0]) + ['\n'], Print(a[1..]), Print(b)); }
        Show(a[0]) + ['\n'] + Print(a[1..]) + Print(b);
      }
    }
  }

  // ---- the printer, statement by statement ----------------------------------------------

  method WriteKey(block: string, key: string, values: seq<string>) returns (b: string)
    ensures b == Print(KeyLines(block, key, values))
  {
    b := "";
    for i := 0 to |values|
      invariant b == Print(KeyLines(block, key, values[..i]))
    {
      assert values[..i + 1][..i] == values[..i];
      PrintAppend(KeyLines(block, key, values[..i]), [Entry(block, key, values[i])]);
      b := b + (key + " = " + values[i] + "\n");
    }
    assert values[..|values|] == values;
  }

  method WriteEntries(block: string, keys: seq<string>, kvs: map<string, seq<string>>) returns (b: string)
    requires forall k :: k in keys ==> k in kvs
    ensures b == Print(EntryLines(block, keys, kvs))
  {
    b := "";
    for i := 0 to |keys|
      invariant b == Print(EntryLines(block, keys[..i], kvs))
    {
      assert keys[..i + 1][..i] == keys[..i];
      var lines := WriteKey(block, keys[i], kvs[keys[i]]);
      PrintAppend(EntryLines(block, keys[..i], kvs), KeyLines(block, keys[i], kvs[keys[i]]));
      b := b + lines;
    }
    assert keys[..|keys|] == keys;
  }

  method WriteSection(name: string, kvs: map<string, seq<string>>) returns (b: string)
    ensures b == Print(SectionLines(name, kvs))
  {
    b := "[" + name + "]\n";
    var keys := CollectKeys(kvs);
    SortHidesOrder(keys, kvs.Keys);
    keys := SortBy(Id, keys);
    assert Print([Header(name)]) == b;
    PrintAppend([Header(name)], EntryLines(name, keys, kvs));
    var entries := WriteEntries(name, keys, kvs);
    b := b + entries;
  }

  method WriteSections(names: seq<string>, sections: MultiSections) returns (b: string)
    requires forall n :: n in names ==> n in sections
    ensures b == Print(FileOf(names, sections))
  {
    b := "";
    for i := 0 to |names|
      invariant b == Print(FileOf(names[..i], sections))
    {
      FileOneMore(names, i, sections);
      if i > 0 {
        b := b + "\n";
      }
      var section := WriteSection(names[i], sections[names[i]]);
      b := b + section;
    }
    assert names[..|names|] == names;
  }

  /** RenderINIMulti prints exactly the lines of the file, whatever order the maps
      are iterated in. */
  method RenderINIMulti(sections: MultiSections) returns (b: string)
    ensures b == Print(File(sections))
  {
    if |sections| == 0 {
      assert sections.Keys == {};
      return "";
    }
    var names := CollectKeys(sections);
    SortHidesOrder(names, sections.Keys);
    names := SortBy(Id, names);
    b := WriteSections(names, sections);
  }

  lemma FileOneMore(names: seq<string>, i: nat, sections: MultiSections)
    requires i < |names| && forall n :: n in names ==> n in sections
    ensures Print(FileOf(names[..i + 1], sections))
         == (if i > 0 then Print(FileOf(names[..i], sections)) + "\n" else Print(FileOf(names[..i], sections)))
            + Print(SectionLines(names[i], sections[names[i]]))
  {
    assert names[..i + 1][..i] == names[..i];
    var head := FileOf(names[..i], sections);
    var section := SectionLines(names[i], sections[names[i]]);
    var blank: seq<Line> := if i > 0 then [Blank] else [];
    assert Print(blank) == if i > 0 then "\n" else "";
    PrintAppend(blank, section);
    PrintAppend(head, blank + section);
    Regroup(Print(head), Print(blank), Print(section));
  }

  // ---- what is read ------------------------------------------------------------------------

  predicate IsBreak(c: char) { c == '\n' || c == '\r' }

  predicate OneLine(s: string) { forall i :: 0 <= i < |s| ==> !IsBreak(s[i]) }

  function BreakAt(s: string): (i: nat)
    ensures i <= |s| && (i < |s| ==> IsBreak(s[i])) && OneLine(s[..i])
  {
    if s == "" || IsBreak(s[0]) then 0
    else
      var i := 1 + BreakAt(s[1..]);
      assert s[..i] == [s[0]] + s[1..][..i - 1];
      i
  }

  /** The lines of a text file read with universal newlines. */
  function LinesOf(text: string): seq<string>
    decreases |text|
  {
    if text == "" then []
    else
      var i := BreakAt(text);
      if i == |text| then [text] else [text[..i]] + LinesOf(text[i + 1..])
  }

  function Shown(lines: seq<Line>): seq<string> { seq(|lines|, i requires 0 <= i < |lines| => Show(lines[i])) }

  lemma {:induction false} BreakAfter(s: string, rest: string)
    requires OneLine(s)
    ensures BreakAt(s + ['\n'] + rest) == |s|
  {
    var t := s + ['\n'] + rest;
    if s != "" {
      assert t[0] == s[0] && t[1..] == s[1..] + ['\n'] + rest;
      BreakAfter(s[1..], rest);
    }
  }

  /** Every printed line is read back as exactly one line. */
  lemma {:induction false} LinesOfPrint(lines: seq<Line>)
    requires forall i :: 0 <= i < |lines| ==> OneLine(Show(lines[i]))
    ensures LinesOf(Print(lines)) == Shown(lines)
  {
    if lines != [] {
      var s, rest := Show(lines[0]), Print(lines[1..]);
      BreakAfter(s, rest);
      assert (s + ['\n'] + rest)[..|s|] == s && (s + ['\n'] + rest)[|s| + 1..] == rest;
      LinesOfPrint(lines[1..]);
      assert Shown(lines) == [s] + Shown(lines[1..]);
    }
  }

  // ---- order of a file -------------------------------------------------------------------------

  function HeaderNames(lines: seq<Line>): seq<string> {
    if lines == [] then [] else (if lines[0].Header? then [lines[0].name] else []) + HeaderNames(lines[1..])
  }

  lemma {:induction false} HeaderNamesAppend(a: seq<Line>, b: seq<Line>)
    ensures HeaderNames(a + b) == HeaderNames(a) + HeaderNames(b)
  {
    if a == [] {
      assert a + b == b;
    } else {
      assert (a + b)[1..] == a[1..] + b;
      HeaderNamesAppend(a[1..], b);
    }
  }

  lemma {:induction false} NoHeaders(lines: seq<Line>)
    requires forall l :: l in lines ==> l.Entry?
    ensures HeaderNames(lines) == []
  {
    if lines != [] {
      assert lines[0] in lines;
      NoHeaders(lines[1..]);
    }
  }

  lemma {:induction false} EntriesOnly(block: string, keys: seq<string>, kvs: map<string, seq<string>>)
    requires forall k :: k in keys ==> k in kvs
    ensures forall l :: l in EntryLines(block, keys, kvs) ==> l.Entry? && l.block == block
  {
    if keys != [] {
      EntriesOnly(block, keys[..|keys| - 1], kvs);
      KeyEntriesOnly(block, keys[|keys| - 1], kvs[keys[|keys| - 1]]);
    }
  }

  lemma {:induction false} KeyEntriesOnly(block: string, key: string, values: seq<string>)
    ensures forall l :: l in KeyLines(block, key, values) ==> l.Entry? && l.block == block
  {
    if values != [] {
      KeyEntriesOnly(block, key, values[..|values| - 1]);
    }
  }

  lemma HeaderOfSection(name: string, kvs: map<string, seq<string>>, blank: bool)
    ensures HeaderNames((if blank then [Blank] else []) + SectionLines(name, kvs)) == [name]
  {
    var entries := EntryLines(name, SortedKeys(kvs.Keys), kvs);
    EntriesOnly(name, SortedKeys(kvs.Keys), kvs);
    NoHeaders(entries);
    OneHeader(name);
    HeaderNamesAppend([Header(name)], entries);
    HeaderNamesAppend(if blank then [Blank] else [], SectionLines(name, kvs));
  }

  lemma {:induction false} HeadersOfNames(names: seq<string>, sections: MultiSections)
    requires forall n :: n in names ==> n in sections
    ensures HeaderNames(FileOf(names, sections)) == names
  {
    if names != [] {
      var n := |names| - 1;
      HeadersOfNames(names[..n], sections);
      HeaderOfSection(names[n], sections[names[n]], n > 0);
      HeaderNamesAppend(FileOf(names[..n], sections), (if n > 0 then [Blank] else []) + SectionLines(names[n], sections[names[n]]));
      assert names == names[..n] + [names[n]];
    }
  }

  lemma OneHeader(name: string)
    ensures HeaderNames([Header(name)]) == [name] && HeaderNames([Blank]) == []
  {
    assert [Header(name)][1..] == [];
    assert [Blank][1..] == [];
  }

  /** The sections stand in sorted order, each once. */
  lemma SectionsInOrder(sections: MultiSections)
    ensures HeaderNames(File(sections)) == SortedKeys(sections.Keys)
  {
    HeadersOfNames(SortedKeys(sections.Keys), sections);
  }

  // ---- contents of a file --------------------------------------------------------------------

  lemma {:induction false} KeyLinesCount(block: string, key: string, values: seq<string>, l: Line)
    ensures Count(KeyLines(block, key, values), l)
         == if l.Entry? && l.block == block && l.key == key then Count(values, l.val) else 0
  {
    if values != [] {
      var n := |values| - 1;
      KeyLinesCount(block, key, values[..n], l);
      assert values == values[..n] + [values[n]];
      CountAppend(KeyLines(block, key, values[..n]), [Entry(block, key, values[n])], l);
      CountOne(Entry(block, key, values[n]), l);
      if l.Entry? {
        CountAppend(values[..n], [values[n]], l.val);
        CountOne(values[n], l.val);
      }
    }
  }

  lemma {:induction false} EntryLinesCount(block: string, keys: seq<string>, kvs: map<string, seq<string>>, l: Line)
    requires (forall k :: k in keys ==> k in kvs) && Distinct(keys)
    ensures Count(EntryLines(block, keys, kvs), l)
         == if l.Entry? && l.block == block && l.key in keys then Count(kvs[l.key], l.val) else 0
  {
    if keys != [] {
      var n := |keys| - 1;
      EntryLinesCount(block, keys[..n], kvs, l);
      KeyLinesCount(block, keys[n], kvs[keys[n]], l);
      assert keys == keys[..n] + [keys[n]];
      CountAppend(EntryLines(block, keys[..n], kvs), KeyLines(block, keys[n], kvs[keys[n]]), l);
    }
  }

  function ValuesAt(sections: MultiSections, name: string, key: string): seq<string> {
    if name in sections && key in sections[name] then sections[name][key] else []
  }

  lemma SectionCount(blank: bool, name: string, sections: MultiSections, l: Line)
    requires name in sections && l.Entry?
    ensures Count((if blank then [Blank] else []) + SectionLines(name, sections[name]), l)
         == if l.block == name then Count(ValuesAt(sections, name, l.key), l.val) else 0
  {
    var keys := SortedKeys(sections[name].Keys);
    var first: seq<Line> := if blank then [Blank] else [];
    EntryLinesCount(name, keys, sections[name], l);
    CountOne(Header(name), l);
    CountOne(Blank, l);
    CountAppend([Header(name)], EntryLines(name, keys, sections[name]), l);
    CountAppend(first, SectionLines(name, sections[name]), l);
  }

  lemma FileOfStep(names: seq<string>, sections: MultiSections, l: Line)
    requires (forall n :: n in names ==> n in sections) && names != [] && l.Entry?
    ensures Count(FileOf(names, sections), l)
         == Count(FileOf(names[..|names| - 1], sections), l)
            + if l.block == names[|names| - 1] then Count(ValuesAt(sections, l.block, l.key), l.val) else 0
  {
    var n := |names| - 1;
    SectionCount(n > 0, names[n], sections, l);
    CountAppend(FileOf(names[..n], sections),
                (if n > 0 then [Blank] else []) + SectionLines(names[n], sections[names[n]]), l);
  }

  lemma {:induction false} FileOfCount(names: seq<string>, sections: MultiSections, l: Line)
    requires (forall n :: n in names ==> n in sections) && Distinct(names) && l.Entry?
    ensures Count(FileOf(names, sections), l)
         == if l.block in names then Count(ValuesAt(sections, l.block, l.key), l.val) else 0
  {
    if names != [] {
      var n := |names| - 1;
      FileOfStep(names, sections, l);
      FileOfCount(names[..n], sections, l);
      assert names == names[..n] + [names[n]];
    }
  }

  /** Each value of each key prints as exactly one entry line of its section, and
      nothing else prints as one. */
  lemma FileCount(sections: MultiSections, l: Line)
    requires l.Entry?
    ensures Count(File(sections), l) == Count(ValuesAt(sections, l.block, l.key), l.val)
    ensures l in File(sections) <==> l.val in ValuesAt(sections, l.block, l.key)
  {
    FileOfCount(SortedKeys(sections.Keys), sections, l);
    CountMember(File(sections), l);
    CountMember(ValuesAt(sections, l.block, l.key), l.val);
  }

  lemma {:induction false} HeadersOf(names: seq<string>, sections: MultiSections, l: Line)
    requires forall n :: n in names ==> n in sections
    requires l in FileOf(names, sections) && l.Header?
    ensures l.name in names
  {
    var n := |names| - 1;
    var last := names[n];
    if l in FileOf(names[..n], sections) {
      HeadersOf(names[..n], sections, l);
      assert l.name in names[..n];
    } else {
      EntryLinesCount(last, SortedKeys(sections[last].Keys), sections[last], l);
      CountMember(EntryLines(last, SortedKeys(sections[last].Keys), sections[last]), l);
    }
  }

  // ---- lifting, merging, checking ----------------------------------------------------------------

  function LiftSections(sections: Sections): MultiSections {
    map name | name in sections :: map k | k in sections[name] :: [sections[name][k]]
  }

  function OptionsOf(sections: Sections, name: string): map<string, string> {
    if name in sections then sections[name] else map[]
  }

  /** User values win, key by key. */
  function MergeDefaults(user: Sections, defaults: Sections): Sections {
    map name | name in user.Keys + defaults.Keys :: OptionsOf(defaults, name) + OptionsOf(user, name)
  }

  predicate CleanOptions(options: map<string, string>) {
    forall k :: k in options ==> OneLine(k) && OneLine(options[k])
  }

  predicate Clean(sections: Sections) { forall name :: name in sections ==> OneLine(name) && CleanOptions(sections[name]) }

  lemma CleanMeans(options: map<string, string>)
    ensures CleanOptions(options)
            <==> forall k :: k in options ==> '\n' !in k && '\r' !in k && '\n' !in options[k] && '\r' !in options[k]
  {
    forall k | k in options ensures OneLine(k) && OneLine(options[k])
                                    <==> '\n' !in k && '\r' !in k && '\n' !in options[k] && '\r' !in options[k]
    {
      OneLineMeans(k);
      OneLineMeans(options[k]);
    }
  }

  lemma OneLineMeans(s: string)
    ensures OneLine(s) <==> '\n' !in s && '\r' !in s
  {
    assert forall i :: 0 <= i < |s| ==> s[i] in s;
  }

  /** The last line of defence behind the webhook. */
  method CheckNoControlChars(options: map<string, string>) returns (ok: bool)
    ensures ok <==> CleanOptions(options)
    ensures ok <==> forall k :: k in options ==> '\n' !in k && '\r' !in k && '\n' !in options[k] && '\r' !in options[k]
  {
    CleanMeans(options);
    var todo := options.Keys;
    while todo != {}
      invariant todo <= options.Keys
      invariant forall k :: k in options.Keys - todo ==> OneLine(k) && OneLine(options[k])
      decreases todo
    {
      var k :| k in todo;
      if !OneLine(k) || !OneLine(options[k]) {
        return false;
      }
      todo := todo - {k};
    }
    return true;
  }

  lemma OneLineParts(key: string, val: string)
    requires OneLine(key) && OneLine(val)
    ensures OneLine(key + " = " + val) && OneLine("[" + key + "]")
  {}

  lemma ShownOnOneLine(sections: Sections, l: Line)
    requires Clean(sections) && l in File(LiftSections(sections))
    ensures OneLine(Show(l))
  {
    var lifted := LiftSections(sections);
    if l.Header? {
      HeadersOf(SortedKeys(lifted.Keys), lifted, l);
      OneLineParts(l.name, "");
    } else if l.Entry? {
      FileCount(lifted, l);
      assert CleanOptions(sections[l.block]);
      OneLineParts(l.key, l.val);
    }
  }

  /** With names, keys and values free of CR and LF, the rendered file is read back
      line by line as it was meant, none injected: each key and value on a line of
      its own. */
  lemma PrintsOneLineEach(sections: Sections, name: string, key: string, val: string)
    requires Clean(sections)
    ensures LinesOf(Print(File(LiftSections(sections)))) == Shown(File(LiftSections(sections)))
    ensures Count(File(LiftSections(sections)), Entry(name, key, val))
         == if name in sections && key in sections[name] && sections[name][key] == val then 1 else 0
  {
    var lines := File(LiftSections(sections));
    forall i | 0 <= i < |lines| ensures OneLine(Show(lines[i])) {
      ShownOnOneLine(sections, lines[i]);
    }
    LinesOfPrint(lines);
    FileCount(LiftSections(sections), Entry(name, key, val));
  }

  // ---- option names ---------------------------------------------------------------------------------

  /** Python's str.strip also drops U+001C to U+001F. */
  predicate Stripped(c: char) { IsSpace(c) || '\U{001c}' <= c <= '\U{001f}' }

  function NameEnd(s: string): (i: nat)
    ensures i <= |s|
  {
    if s == "" || s[0] == ':' || s[0] == '=' then 0 else 1 + NameEnd(s[1..])
  }

  /** What names the option on a line: the trimmed text before the first separator, or
      nothing where a leading blank makes the line part of the value before it. */
  function IniOptionName(line: string): string {
    if line != "" && (line[0] == ' ' || line[0] == '\t') then ""
    else Trim(Stripped, line[..NameEnd(line)])
  }

  lemma {:induction false} NameEndOfLine(key: string, val: string)
    ensures NameEnd(key + " = " + val) == if NameEnd(key) < |key| then NameEnd(key) else |key| + 1
  {
    var line := key + " = " + val;
    if key == "" {
      assert line[0] == ' ' && line[1] == '=';
      assert NameEnd(line[1..]) == 0;
    } else if key[0] != ':' && key[0] != '=' {
      assert line[1..] == key[1..] + " = " + val;
      NameEndOfLine(key[1..], val);
    }
  }

  lemma {:induction false} TrimLeftThenSpace(s: string)
    ensures TrimLeft(Stripped, s + " ") == if TrimLeft(Stripped, s) == "" then "" else TrimLeft(Stripped, s) + " "
  {
    if s != "" && Stripped(s[0]) {
      assert (s + " ")[1..] == s[1..] + " ";
      TrimLeftThenSpace(s[1..]);
    } else if s == "" {
      assert (s + " ")[1..] == "";
    }
  }

  lemma TrimThenSpace(s: string)
    ensures Trim(Stripped, s + " ") == Trim(Stripped, s)
  {
    TrimLeftThenSpace(s);
    var t := TrimLeft(Stripped, s);
    assert (t + " ")[..|t|] == t;
  }

  /** The option read from a printed line is the one read from the bare key, for
      every key and value. */
  lemma NameOfPrintedLine(key: string, val: string)
    ensures IniOptionName(key + " = " + val) == IniOptionName(key)
  {
    var line := key + " = " + val;
    NameEndOfLine(key, val);
    if key == "" {
      assert line[0] == ' ';
      assert Trim(Stripped, "") == "";
    } else {
      assert line[0] == key[0];
      if NameEnd(key) < |key| {
        assert line[..NameEnd(key)] == key[..NameEnd(key)];
      } else {
        assert line[..|key| + 1] == key + " " && key[..|key|] == key;
        TrimThenSpace(key);
      }
    }
  }

  // ---- the socket-timeout variables --------------------------------------------------------------------

  const CONNECTION_PARAMETERS := "connection_parameters"

  function LowerASCII(s: string): string {
    seq(|s|, i requires 0 <= i < |s| => if 'A' <= s[i] <= 'Z' then s[i] - 'A' + 'a' else s[i])
  }

  /** The same letter, in either case, or the same other character. */
  predicate SameLetter(a: char, b: char) {
    a == b || ('A' <= a <= 'Z' && b as int == a as int + 32) || ('A' <= b <= 'Z' && a as int == b as int + 32)
  }

  predicate SameFold(a: string, b: string) {
    |a| == |b| && forall i :: 0 <= i < |a| ==> SameLetter(a[i], b[i])
  }

  /** Two block names are one to the reader exactly when they differ in the case of ASCII
      letters at most. */
  lemma FoldsCaseOnly(a: string, b: string)
    ensures LowerASCII(a) == LowerASCII(b) <==> SameFold(a, b)
  {
    if LowerASCII(a) == LowerASCII(b) {
      forall i | 0 <= i < |a| ensures SameLetter(a[i], b[i]) {
        assert LowerASCII(a)[i] == LowerASCII(b)[i];
      }
    }
  }

  /** Which text before the first separator names the option: a key padded with anything
      the reader strips, unless it starts with a blank, reads as the bare name, up to a
      colon or an equals sign; with a leading blank it names none. */
  lemma PaddedNameReads(left: string, name: string, right: string, sep: char, rest: string)
    requires name != "" && ':' !in name && '=' !in name && !Stripped(name[0]) && !Stripped(name[|name| - 1])
    requires (forall c :: c in left + right ==> Stripped(c)) && sep in {':', '='}
    ensures var key := left + name + right + [sep] + rest;
            IniOptionName(key) == if left != "" && left[0] in {' ', '\t'} then "" else name
  {
    var stem := left + name + right;
    var key := stem + [sep] + rest;
    assert ':' !in stem && '=' !in stem by {
      forall c | c in stem ensures c != ':' && c != '=' {
        assert c in left + right || c in name;
      }
    }
    NameEndBefore(stem, sep, rest);
    assert key[..|stem|] == stem;
    TrimLeftOf(left, name, right);
    TrimRightOf(name, right);
    assert key[0] == if left != "" then left[0] else name[0];
    assert left != "" ==> left[0] in left + right;
  }

  lemma {:induction false} NameEndBefore(stem: string, sep: char, rest: string)
    requires ':' !in stem && '=' !in stem && sep in {':', '='}
    ensures NameEnd(stem + [sep] + rest) == |stem|
  {
    var s := stem + [sep] + rest;
    if stem != "" {
      assert s[1..] == stem[1..] + [sep] + rest;
      NameEndBefore(stem[1..], sep, rest);
    }
  }

  lemma {:induction false} TrimLeftOf(left: string, name: string, right: string)
    requires name != "" && !Stripped(name[0]) && forall c :: c in left ==> Stripped(c)
    ensures TrimLeft(Stripped, left + name + right) == name + right
  {
    var s := left + name + right;
    if left != "" {
      assert s[1..] == left[1..] + name + right && left[0] in left;
      TrimLeftOf(left[1..], name, right);
    } else {
      assert s == name + right;
    }
  }

  lemma {:induction false} TrimRightOf(name: string, right: string)
    requires name != "" && !Stripped(name[|name| - 1]) && forall c :: c in right ==> Stripped(c)
    ensures TrimRight(Stripped, name + right) == name
  {
    var s := name + right;
    if right != "" {
      assert s[..|s| - 1] == name + right[..|right| - 1] && right[|right| - 1] in right;
      TrimRightOf(name, right[..|right| - 1]);
    } else {
      assert s == name;
    }
  }

  predicate SetsIn(options: map<string, string>) {
    exists k :: k in options && IniOptionName(k) == CONNECTION_PARAMETERS
  }

  predicate UserSets(extraConfig: Sections, section: string) {
    exists name :: name in extraConfig && LowerASCII(name) == LowerASCII(section) && SetsIn(extraConfig[name])
  }

  method UserSetsConnectionParameters(extraConfig: Sections, section: string) returns (r: bool)
    ensures r <==> UserSets(extraConfig, section)
  {
    var names := extraConfig.Keys;
    while names != {}
      invariant names <= extraConfig.Keys
      invariant forall n :: n in extraConfig.Keys - names && LowerASCII(n) == LowerASCII(section) ==> !SetsIn(extraConfig[n])
      decreases names
    {
      var name :| name in names;
      names := names - {name};
      if LowerASCII(name) != LowerASCII(section) {
        continue;
      }
      var keys := extraConfig[name].Keys;
      while keys != {}
        invariant keys <= extraConfig[name].Keys
        invariant forall k :: k in extraConfig[name].Keys - keys ==> IniOptionName(k) != CONNECTION_PARAMETERS
        decreases keys
      {
        var key :| key in keys;
        keys := keys - {key};
        if IniOptionName(key) == CONNECTION_PARAMETERS {
          assert SetsIn(extraConfig[name]);
          return true;
        }
      }
    }
    return false;
  }

  function Emitted(extraConfig: Sections, sections: seq<string>): seq<string> {
    if sections == [] then []
    else
      var n := |sections| - 1;
      Emitted(extraConfig, sections[..n]) + if UserSets(extraConfig, sections[n]) then [] else [sections[n]]
  }

  /** SocketTimeoutEnvVars, as the sections it emits a variable for, in order. */
  method SocketTimeoutEnvVars(extraConfig: Sections, sections: seq<string>) returns (env: seq<string>)
    ensures env == Emitted(extraConfig, sections)
  {
    env := [];
    for i := 0 to |sections|
      invariant env == Emitted(extraConfig, sections[..i])
    {
      assert sections[..i + 1][..i] == sections[..i];
      var sets := UserSetsConnectionParameters(extraConfig, sections[i]);
      if sets {
        continue;
      }
      env := env + [sections[i]];
    }
    assert sections[..|sections|] == sections;
  }

  lemma {:induction false} EmittedMembers(extraConfig: Sections, sections: seq<string>, section: string)
    ensures section in Emitted(extraConfig, sections) <==> section in sections && !UserSets(extraConfig, section)
  {
    if sections != [] {
      var n := |sections| - 1;
      EmittedMembers(extraConfig, sections[..n], section);
      assert sections == sections[..n] + [sections[n]];
    }
  }

  /** One section at a time, in the order given, however often it is named. */
  lemma {:induction false} EmittedOneByOne(extraConfig: Sections, a: seq<string>, b: seq<string>)
    ensures Emitted(extraConfig, a + b) == Emitted(extraConfig, a) + Emitted(extraConfig, b)
  {
    if b == [] {
      assert a + b == a;
    } else {
      var n := |b| - 1;
      EmittedOneByOne(extraConfig, a, b[..n]);
      assert (a + b)[..|a + b| - 1] == a + b[..n];
      var last := if UserSets(extraConfig, b[n]) then [] else [b[n]];
      Regroup(Emitted(extraConfig, a), Emitted(extraConfig, b[..n]), last);
    }
  }

  /** An entry line of a block the reader folds to section that reads as
      connection_parameters. */
  ghost predicate LineSets(lines: seq<Line>, section: string) {
    exists i :: 0 <= i < |lines| && lines[i].Entry?
                && LowerASCII(lines[i].block) == LowerASCII(section)
                && IniOptionName(Show(lines[i])) == CONNECTION_PARAMETERS
  }

  ghost predicate DefaultsLeave(defaults: Sections, section: string) {
    forall name :: name in defaults && LowerASCII(name) == LowerASCII(section) ==> !SetsIn(defaults[name])
  }

  lemma MergedValues(user: Sections, defaults: Sections, l: Line)
    requires l.Entry?
    ensures l in File(LiftSections(MergeDefaults(user, defaults)))
            <==> if l.key in OptionsOf(user, l.block) then l.val == user[l.block][l.key]
                 else l.key in OptionsOf(defaults, l.block) && l.val == defaults[l.block][l.key]
  {
    FileCount(LiftSections(MergeDefaults(user, defaults)), l);
  }

  lemma UserKeyPrints(user: Sections, defaults: Sections, section: string)
    requires UserSets(user, section)
    ensures LineSets(File(LiftSections(MergeDefaults(user, defaults))), section)
  {
    var lines := File(LiftSections(MergeDefaults(user, defaults)));
    var name :| name in user && LowerASCII(name) == LowerASCII(section) && SetsIn(user[name]);
    var k :| k in user[name] && IniOptionName(k) == CONNECTION_PARAMETERS;
    var l := Entry(name, k, user[name][k]);
    MergedValues(user, defaults, l);
    NameOfPrintedLine(k, user[name][k]);
    var i :| 0 <= i < |lines| && lines[i] == l;
    assert lines[i].Entry?;
  }

  lemma PrintedKeyIsUsers(user: Sections, defaults: Sections, section: string)
    requires DefaultsLeave(defaults, section)
    requires LineSets(File(LiftSections(MergeDefaults(user, defaults))), section)
    ensures UserSets(user, section)
  {
    var lines := File(LiftSections(MergeDefaults(user, defaults)));
    var i :| 0 <= i < |lines| && lines[i].Entry?
             && LowerASCII(lines[i].block) == LowerASCII(section)
             && IniOptionName(Show(lines[i])) == CONNECTION_PARAMETERS;
    var l := lines[i];
    MergedValues(user, defaults, l);
    NameOfPrintedLine(l.key, l.val);
    assert SetsIn(OptionsOf(user, l.block)) || SetsIn(OptionsOf(defaults, l.block));
  }

  /** The decision taken from the map is the one the printed file gives: over
      defaults that leave the option alone, a section's variable is emitted
      exactly when no entry line of a rendered block of that name reads as
      connection_parameters. */
  lemma EmittedExactlyWhenFileLeavesIt(user: Sections, defaults: Sections, sections: seq<string>, section: string)
    requires section in sections && DefaultsLeave(defaults, section)
    ensures section in Emitted(user, sections)
            <==> !LineSets(File(LiftSections(MergeDefaults(user, defaults))), section)
  {
    EmittedMembers(user, sections, section);
    if UserSets(user, section) {
      UserKeyPrints(user, defaults, section);
    }
    if LineSets(File(LiftSections(MergeDefaults(user, defaults))), section) {
      PrintedKeyIsUsers(user, defaults, section);
    }
  }

  // ---- the same decision, read from the text alone -------------------------------------------------

  /** A reader that sees only lines: one that starts with a bracket opens a block, an
      empty one is skipped, every other belongs to the block opened last. */
  function ReadEntries(lines: seq<string>, current: string): seq<(string, string)> {
    if lines == [] then []
    else
      var l := lines[0];
      if l == "" then ReadEntries(lines[1..], current)
      else if l[0] == '[' then ReadEntries(lines[1..], l[1..if |l| > 1 then |l| - 1 else 1])
      else [(current, l)] + ReadEntries(lines[1..], current)
  }

  predicate OpensNothing(key: string) { key == "" || key[0] != '[' }

  /** What a line leaves open: a header its block, an entry whose key starts with a
      bracket the block the reader takes it for. */
  function OpenedBy(l: Line, current: string): string {
    match l
    case Blank => current
    case Header(name) => name
    case Entry(_, key, _) => if OpensNothing(key) then current else Show(l)[1..|Show(l)| - 1]
  }

  function OpenedAfter(lines: seq<Line>, current: string): string {
    if lines == [] then current else OpenedAfter(lines[1..], OpenedBy(lines[0], current))
  }

  /** What the reader finds, block by block. */
  function OpenEntries(lines: seq<Line>, current: string): seq<(string, string)> {
    if lines == [] then []
    else
      var rest := OpenEntries(lines[1..], OpenedBy(lines[0], current));
      if lines[0].Entry? && OpensNothing(lines[0].key) then [(current, Show(lines[0]))] + rest else rest
  }

  lemma ShownFirst(l: Line)
    ensures l.Header? ==> Show(l)[0] == '[' && |Show(l)| > 1 && Show(l)[1..|Show(l)| - 1] == l.name
    ensures l.Entry? ==> |Show(l)| > 1 && (Show(l)[0] == '[' <==> !OpensNothing(l.key))
  {
    if l.Entry? {
      assert Show(l)[0] == if l.key == "" then ' ' else l.key[0];
    }
  }

  lemma {:induction false} ReadOfShown(lines: seq<Line>, current: string)
    ensures ReadEntries(Shown(lines), current) == OpenEntries(lines, current)
  {
    if lines != [] {
      var shown := Shown(lines);
      assert shown[1..] == Shown(lines[1..]) && shown[0] == Show(lines[0]);
      ShownFirst(lines[0]);
      ReadOfShown(lines[1..], OpenedBy(lines[0], current));
    }
  }

  lemma {:induction false} OpenAppend(a: seq<Line>, b: seq<Line>, current: string)
    ensures OpenEntries(a + b, current) == OpenEntries(a, current) + OpenEntries(b, OpenedAfter(a, current))
    ensures OpenedAfter(a + b, current) == OpenedAfter(b, OpenedAfter(a, current))
  {
    if a == [] {
      assert a + b == b;
    } else {
      assert (a + b)[1..] == a[1..] + b;
      OpenAppend(a[1..], b, OpenedBy(a[0], current));
    }
  }

  predicate Plain(block: string) { '=' !in block }

  /** A block that an entry opens has an equals sign in its name. */
  lemma EntryOpensNoPlain(l: Line, current: string)
    requires l.Entry? && !OpensNothing(l.key)
    ensures !Plain(OpenedBy(l, current))
  {
    var shown := Show(l);
    assert shown[|l.key| + 1] == '=' && |shown| > |l.key| + 2;
    assert shown[1..|shown| - 1][|l.key|] == '=';
  }

  predicate Single(kvs: map<string, seq<string>>) { forall k :: k in kvs ==> |kvs[k]| == 1 }

  /** No key up to i opens a block. */
  predicate StillOpen(keys: seq<string>, i: nat)
    requires i <= |keys|
  {
    forall j :: 0 <= j < i ==> OpensNothing(keys[j])
  }

  lemma StillOpenPrefix(keys: seq<string>, n: nat)
    requires n <= |keys|
    ensures StillOpen(keys, n) <==> StillOpen(keys[..n], n)
  {
    assert forall j :: 0 <= j < n ==> keys[..n][j] == keys[j];
  }

  lemma StillOpenLast(keys: seq<string>)
    requires keys != []
    ensures var n := |keys| - 1;
            StillOpen(keys, n + 1) <==> StillOpen(keys[..n], n) && OpensNothing(keys[n])
  {
    StillOpenPrefix(keys, |keys| - 1);
  }

  lemma OneLineOf(block: string, key: string, v: string)
    ensures KeyLines(block, key, [v]) == [Entry(block, key, v)]
  {
    assert [v][..0] == [];
  }

  lemma {:induction false} OpenAfterEntries(block: string, keys: seq<string>, kvs: map<string, seq<string>>)
    requires (forall k :: k in keys ==> k in kvs) && Single(kvs)
    ensures var after := OpenedAfter(EntryLines(block, keys, kvs), block);
            if StillOpen(keys, |keys|) then after == block else !Plain(after)
  {
    if keys != [] {
      var n := |keys| - 1;
      var l := Entry(block, keys[n], kvs[keys[n]][0]);
      OpenAfterEntries(block, keys[..n], kvs);
      OneLineOf(block, keys[n], kvs[keys[n]][0]);
      OpenAppend(EntryLines(block, keys[..n], kvs), [l], block);
      StillOpenLast(keys);
      LeavesOpen(l, OpenedAfter(EntryLines(block, keys[..n], kvs), block));
    }
  }

  lemma LeavesOpen(l: Line, current: string)
    requires l.Entry?
    ensures OpenedAfter([l], current) == OpenedBy(l, current)
    ensures if OpensNothing(l.key) then OpenedBy(l, current) == current else !Plain(OpenedBy(l, current))
    ensures OpenEntries([l], current) == if OpensNothing(l.key) then [(current, Show(l))] else []
  {
    assert [l][1..] == [];
    if !OpensNothing(l.key) {
      EntryOpensNoPlain(l, current);
    }
  }

  /** Entry i of the section is shown as line under the section's own block. */
  predicate ReadAt(block: string, keys: seq<string>, kvs: map<string, seq<string>>, i: nat, line: string)
    requires i < |keys| && (forall k :: k in keys ==> k in kvs) && Single(kvs)
  {
    line == Show(Entry(block, keys[i], kvs[keys[i]][0])) && StillOpen(keys, i + 1)
  }

  ghost predicate ReadSome(block: string, keys: seq<string>, kvs: map<string, seq<string>>, line: string)
    requires (forall k :: k in keys ==> k in kvs) && Single(kvs)
  {
    exists i :: 0 <= i < |keys| && ReadAt(block, keys, kvs, i, line)
  }

  lemma ReadFront(block: string, keys: seq<string>, kvs: map<string, seq<string>>, i: nat, line: string)
    requires i < |keys| - 1 && (forall k :: k in keys ==> k in kvs) && Single(kvs)
    ensures ReadAt(block, keys, kvs, i, line) <==> ReadAt(block, keys[..|keys| - 1], kvs, i, line)
  {
    var front := keys[..|keys| - 1];
    assert front[i] == keys[i] && front[..i + 1] == keys[..i + 1];
    StillOpenPrefix(front, i + 1);
    StillOpenPrefix(keys, i + 1);
  }

  lemma ReadLast(block: string, keys: seq<string>, kvs: map<string, seq<string>>, line: string)
    requires keys != [] && (forall k :: k in keys ==> k in kvs) && Single(kvs)
    ensures ReadSome(block, keys, kvs, line)
            <==> ReadSome(block, keys[..|keys| - 1], kvs, line) || ReadAt(block, keys, kvs, |keys| - 1, line)
  {
    var n := |keys| - 1;
    forall i | 0 <= i < n
      ensures ReadAt(block, keys, kvs, i, line) <==> ReadAt(block, keys[..n], kvs, i, line)
    {
      ReadFront(block, keys, kvs, i, line);
    }
  }

  lemma {:induction false} EntriesOpen(block: string, keys: seq<string>, kvs: map<string, seq<string>>, e: (string, string))
    requires (forall k :: k in keys ==> k in kvs) && Single(kvs) && Plain(e.0)
    ensures e in OpenEntries(EntryLines(block, keys, kvs), block) <==> e.0 == block && ReadSome(block, keys, kvs, e.1)
  {
    if keys != [] {
      var n := |keys| - 1;
      var front := keys[..n];
      var l := Entry(block, keys[n], kvs[keys[n]][0]);
      var after := OpenedAfter(EntryLines(block, front, kvs), block);
      EntriesOpen(block, front, kvs, e);
      OneLineOf(block, keys[n], kvs[keys[n]][0]);
      OpenAppend(EntryLines(block, front, kvs), [l], block);
      OpenAfterEntries(block, front, kvs);
      LeavesOpen(l, after);
      ReadLast(block, keys, kvs, e.1);
      StillOpenLast(keys);
    }
  }

  /** The section of that name has such an entry. */
  ghost predicate ReadIn(sections: MultiSections, name: string, line: string)
    requires forall n :: n in sections ==> Single(sections[n])
  {
    name in sections && ReadSome(name, SortedKeys(sections[name].Keys), sections[name], line)
  }

  lemma SectionOpens(name: string, sections: MultiSections, blank: bool, current: string, e: (string, string))
    requires name in sections && (forall n :: n in sections ==> Single(sections[n])) && Plain(e.0)
    ensures e in OpenEntries((if blank then [Blank] else []) + SectionLines(name, sections[name]), current)
            <==> e.0 == name && ReadIn(sections, name, e.1)
  {
    var section := SectionLines(name, sections[name]);
    var keys := SortedKeys(sections[name].Keys);
    assert section[1..] == EntryLines(name, keys, sections[name]);
    assert blank ==> ([Blank] + section)[1..] == section;
    assert !blank ==> [] + section == section;
    EntriesOpen(name, keys, sections[name], e);
  }

  lemma {:induction false} FileOpens(names: seq<string>, sections: MultiSections, e: (string, string))
    requires (forall n :: n in names ==> n in sections) && (forall n :: n in sections ==> Single(sections[n])) && Plain(e.0)
    ensures e in OpenEntries(FileOf(names, sections), "") <==> e.0 in names && ReadIn(sections, e.0, e.1)
  {
    if names != [] {
      var n := |names| - 1;
      FileOpens(names[..n], sections, e);
      OpenAppend(FileOf(names[..n], sections),
                 (if n > 0 then [Blank] else []) + SectionLines(names[n], sections[names[n]]), "");
      SectionOpens(names[n], sections, n > 0, OpenedAfter(FileOf(names[..n], sections), ""), e);
      assert names == names[..n] + [names[n]];
    }
  }

  /** The text has an entry that reads as connection_parameters under a block the
      reader folds to section. */
  ghost predicate TextSets(text: string, section: string) {
    exists e :: e in ReadEntries(LinesOf(text), "")
                && LowerASCII(e.0) == LowerASCII(section) && IniOptionName(e.1) == CONNECTION_PARAMETERS
  }

  /** A key of a block folded to section that reads as connection_parameters, with no
      key before it in the block that starts with a bracket. */
  predicate Reachable(sections: Sections, name: string, key: string, section: string) {
    name in sections && key in sections[name]
    && LowerASCII(name) == LowerASCII(section) && IniOptionName(key) == CONNECTION_PARAMETERS
    && forall k :: k in sections[name] && !OpensNothing(k) ==> k != key && !Le(k, key)
  }

  lemma StillOpenIff(s: set<string>, i: nat)
    requires i < |SortedKeys(s)|
    ensures StillOpen(SortedKeys(s), i + 1)
            <==> forall k :: k in s && !OpensNothing(k) ==> k != SortedKeys(s)[i] && !Le(k, SortedKeys(s)[i])
  {
    var keys := SortedKeys(s);
    if StillOpen(keys, i + 1) {
      forall k | k in s && !OpensNothing(k) ensures k != keys[i] && !Le(k, keys[i]) {
        var j :| 0 <= j < |keys| && keys[j] == k;
        assert i < j && Le(Id(keys[i]), Id(keys[j]));
        if Le(k, keys[i]) {
          LeAntisymmetric(k, keys[i]);
        }
      }
    } else {
      var j :| 0 <= j < i + 1 && !OpensNothing(keys[j]);
      assert keys[j] in s;
      assert j < i ==> Le(Id(keys[j]), Id(keys[i]));
    }
  }

  lemma FoldedPlain(name: string, section: string)
    requires LowerASCII(name) == LowerASCII(section) && Plain(section)
    ensures Plain(name)
  {
    forall i | 0 <= i < |name| ensures name[i] != '=' {
      assert LowerASCII(name)[i] == LowerASCII(section)[i] && section[i] in section;
    }
  }

  lemma ReadsReachable(sections: Sections, name: string, line: string, section: string)
    requires ReadIn(LiftSections(sections), name, line)
    requires LowerASCII(name) == LowerASCII(section) && IniOptionName(line) == CONNECTION_PARAMETERS
    ensures exists key :: Reachable(sections, name, key, section)
  {
    var kvs := LiftSections(sections)[name];
    var keys := SortedKeys(kvs.Keys);
    var i :| 0 <= i < |keys| && ReadAt(name, keys, kvs, i, line);
    assert keys[i] in keys;
    NameOfPrintedLine(keys[i], kvs[keys[i]][0]);
    StillOpenIff(kvs.Keys, i);
    assert Reachable(sections, name, keys[i], section);
  }

  lemma ReachableIsRead(sections: Sections, name: string, key: string, section: string)
    requires Reachable(sections, name, key, section)
    ensures ReadIn(LiftSections(sections), name, Show(Entry(name, key, sections[name][key])))
    ensures IniOptionName(Show(Entry(name, key, sections[name][key]))) == CONNECTION_PARAMETERS
  {
    var kvs := LiftSections(sections)[name];
    var keys := SortedKeys(kvs.Keys);
    assert key in kvs.Keys && key in keys;
    var i :| 0 <= i < |keys| && keys[i] == key;
    NameOfPrintedLine(key, sections[name][key]);
    StillOpenIff(kvs.Keys, i);
    assert ReadAt(name, keys, kvs, i, Show(Entry(name, key, sections[name][key])));
  }

  /** What the text says, read off the map: for clean sections, whatever their keys, and
      a section name without an equals sign. */
  lemma TextSetsIff(sections: Sections, section: string)
    requires Clean(sections) && Plain(section)
    ensures TextSets(Print(File(LiftSections(sections))), section)
            <==> exists name, key :: Reachable(sections, name, key, section)
  {
    var lifted := LiftSections(sections);
    var lines := File(lifted);
    PrintsOneLineEach(sections, "", "", "");
    ReadOfShown(lines, "");
    if TextSets(Print(lines), section) {
      var e :| e in OpenEntries(lines, "") && LowerASCII(e.0) == LowerASCII(section) && IniOptionName(e.1) == CONNECTION_PARAMETERS;
      FoldedPlain(e.0, section);
      FileOpens(SortedKeys(lifted.Keys), lifted, e);
      ReadsReachable(sections, e.0, e.1, section);
    }
    if name, key :| Reachable(sections, name, key, section) {
      var e := (name, Show(Entry(name, key, sections[name][key])));
      FoldedPlain(name, section);
      ReachableIsRead(sections, name, key, section);
      FileOpens(SortedKeys(lifted.Keys), lifted, e);
    }
  }

  lemma MergedIsClean(user: Sections, defaults: Sections)
    requires Clean(user) && Clean(defaults)
    ensures Clean(MergeDefaults(user, defaults))
  {
    var merged := MergeDefaults(user, defaults);
    forall name | name in merged ensures OneLine(name) && CleanOptions(merged[name]) {
      assert CleanOptions(OptionsOf(user, name)) && CleanOptions(OptionsOf(defaults, name));
    }
  }

  lemma ReachableIsUsers(user: Sections, defaults: Sections, name: string, key: string, section: string)
    requires DefaultsLeave(defaults, section) && Reachable(MergeDefaults(user, defaults), name, key, section)
    ensures UserSets(user, section)
  {
    assert SetsIn(OptionsOf(user, name)) || SetsIn(OptionsOf(defaults, name));
  }

  /** So the decision is the one the rendered text gives a reader that sees nothing
      else, exactly when some key that made it stands before every key of its block
      that starts with a bracket: such a key prints as a header and takes the lines
      after it along. */
  lemma TextAgreesExactly(user: Sections, defaults: Sections, sections: seq<string>, section: string)
    requires section in sections && DefaultsLeave(defaults, section)
    requires Clean(user) && Clean(defaults) && Plain(section)
    ensures var merged := MergeDefaults(user, defaults);
            (section in Emitted(user, sections) <==> !TextSets(Print(File(LiftSections(merged))), section))
            <==> (UserSets(user, section) ==> exists name, key :: Reachable(merged, name, key, section))
  {
    var merged := MergeDefaults(user, defaults);
    MergedIsClean(user, defaults);
    TextSetsIff(merged, section);
    EmittedMembers(user, sections, section);
    if name, key :| Reachable(merged, name, key, section) {
      ReachableIsUsers(user, defaults, name, key, section);
    }
  }

  ghost predicate NoBracketKeys(sections: Sections) {
    forall name, k :: name in sections && k in sections[name] ==> OpensNothing(k)
  }

  /** Always, when no key starts with a bracket. */
  lemma EmittedExactlyWhenTextLeavesIt(user: Sections, defaults: Sections, sections: seq<string>, section: string)
    requires section in sections && DefaultsLeave(defaults, section)
    requires Clean(user) && Clean(defaults) && Plain(section) && NoBracketKeys(MergeDefaults(user, defaults))
    ensures section in Emitted(user, sections)
            <==> !TextSets(Print(File(LiftSections(MergeDefaults(user, defaults)))), section)
  {
    var merged := MergeDefaults(user, defaults);
    TextAgreesExactly(user, defaults, sections, section);
    if UserSets(user, section) {
      var name :| name in user && LowerASCII(name) == LowerASCII(section) && SetsIn(user[name]);
      var k :| k in user[name] && IniOptionName(k) == CONNECTION_PARAMETERS;
      assert Reachable(merged, name, k, section);
    }
  }

  lemma {:induction false} NameEndAtEnd(s: string)
    requires ':' !in s && '=' !in s
    ensures NameEnd(s) == |s|
  {
    if s != "" {
      NameEndAtEnd(s[1..]);
    }
  }

  lemma OwnName(s: string)
    requires s != "" && ':' !in s && '=' !in s && s[0] != ' ' && s[0] != '\t'
    requires !Stripped(s[0]) && !Stripped(s[|s| - 1])
    ensures IniOptionName(s) == s
  {
    NameEndAtEnd(s);
    assert s[..|s|] == s;
  }

  predicate IsWord(s: string) { s != "" && forall i :: 0 <= i < |s| ==> 'a' <= s[i] <= 'z' || s[i] == '_' }

  lemma WordNamesItself(s: string)
    requires IsWord(s)
    ensures IniOptionName(s) == s && OneLine(s)
  {
    OwnName(s);
  }

  lemma ParametersAreAWord()
    ensures IsWord(CONNECTION_PARAMETERS)
  {}

  /** One section with a key that starts with a bracket beside connection_parameters. */
  function Shadowed(section: string, bracket: string, v: string, w: string): Sections {
    map[section := map[bracket := v, CONNECTION_PARAMETERS := w]]
  }

  lemma ShadowedIsSet(section: string, bracket: string, v: string, w: string)
    ensures var user := Shadowed(section, bracket, v, w);
            UserSets(user, section) && Emitted(user, [section]) == []
  {
    var user := Shadowed(section, bracket, v, w);
    ParametersAreAWord();
    WordNamesItself(CONNECTION_PARAMETERS);
    assert CONNECTION_PARAMETERS in user[section];
    assert SetsIn(user[section]);
    assert [section][..0] == [];
  }

  lemma PairIsClean(section: string, a: string, b: string, v: string, w: string)
    requires OneLine(section) && OneLine(a) && OneLine(b) && OneLine(v) && OneLine(w)
    ensures Clean(map[section := map[a := v, b := w]])
  {}

  lemma NoDefaults(user: Sections)
    ensures MergeDefaults(user, map[]) == user
  {
    forall name | name in user ensures OptionsOf(map[], name) + OptionsOf(user, name) == user[name] {
    }
  }

  lemma NothingReachable(section: string, bracket: string, v: string, w: string, name: string, key: string)
    requires !OpensNothing(bracket)
    ensures !Reachable(Shadowed(section, bracket, v, w), name, key, section)
  {
    assert Le(bracket, CONNECTION_PARAMETERS);
    assert bracket in Shadowed(section, bracket, v, w)[section];
  }

  /** The condition is needed beside every key that starts with a bracket: it sorts
      before connection_parameters, so no variable is emitted for the section and no
      line of the text sets it. */
  lemma BracketKeyShadows(section: string, bracket: string, v: string, w: string)
    requires !OpensNothing(bracket) && Plain(section)
    requires OneLine(section) && OneLine(bracket) && OneLine(v) && OneLine(w)
    ensures var user := Shadowed(section, bracket, v, w);
            Clean(user) && UserSets(user, section) && Emitted(user, [section]) == []
            && !TextSets(Print(File(LiftSections(MergeDefaults(user, map[])))), section)
  {
    ShadowedIsSet(section, bracket, v, w);
    ParametersAreAWord();
    WordNamesItself(CONNECTION_PARAMETERS);
    PairIsClean(section, bracket, CONNECTION_PARAMETERS, v, w);
    NoDefaults(Shadowed(section, bracket, v, w));
    TextSetsIff(Shadowed(section, bracket, v, w), section);
    forall name, key ensures !Reachable(Shadowed(section, bracket, v, w), name, key, section) {
      NothingReachable(section, bracket, v, w, name, key);
    }
  }
}
