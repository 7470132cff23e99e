/** The dictionary of 2_echo_server/Dict.hpp:26-68, from the text of its file. */
module Dict {
  import opened Wrappers

  const SEP := ": "

  /** std::getline over the whole file: a final line without newline counts, an empty rest does not. */
  function Lines(text: string): seq<string>
    decreases |text|
  {
    if text == "" then []
    else
      var k := Index(text, "\n");
      if k.None? then [text] else [text[..k.value]] + Lines(text[k.value + 1..])
  }

  predicate At(s: string, pat: string, i: nat) {
    i + |pat| <= |s| && s[i..i + |pat|] == pat
  }

  /** std::string::find from position 0. */
  function Index(s: string, pat: string): (r: Option<nat>)
    requires pat != ""
    ensures r.Some? ==> At(s, pat, r.value) && forall i :: 0 <= i < r.value ==> !At(s, pat, i)
    ensures r.None? ==> forall i: nat :: !At(s, pat, i)
  {
    IndexFrom(s, pat, 0)
  }

  function IndexFrom(s: string, pat: string, i: nat): (r: Option<nat>)
    requires pat != "" && i <= |s|
    requires forall k :: 0 <= k < i ==> !At(s, pat, k)
    ensures r.Some? ==> At(s, pat, r.value) && forall k :: 0 <= k < r.value ==> !At(s, pat, k)
    ensures r.None? ==> forall k: nat :: !At(s, pat, k)
    decreases |s| - i
  {
    if At(s, pat, i) then Some(i)
    else if i == |s| then None
    else IndexFrom(s, pat, i + 1)
  }

  datatype Entry = Entry(key: string, value: string)

  /** The key and value of a line, None if it has no separator. */
  function Parse(line: string): Option<Entry> {
    match Index(line, SEP)
    case None => None
    case Some(k) => Some(Entry(line[..k], line[k + |SEP|..]))
  }

  /** unordered_map::insert leaves an existing key alone. */
  function Insert(dict: map<string, string>, e: Entry): map<string, string> {
    if e.key in dict then dict else dict[e.key := e.value]
  }

  function LoadLines(dict: map<string, string>, lines: seq<string>): map<string, string>
    decreases |lines|
  {
    if lines == [] then dict
    else
      var before := LoadLines(dict, lines[..|lines| - 1]);
      match Parse(lines[|lines| - 1])
      case None => before
      case Some(e) => Insert(before, e)
  }

  function Translation(dict: map<string, string>, word: string): string {
    if word in dict then dict[word] else "None"
  }

  // ---------- What a file means ----------

  function Print(e: Entry): string { e.key + SEP + e.value }

  function PrintAll(entries: seq<Entry>): string {
    if entries == [] then "" else Print(entries[0]) + "\n" + PrintAll(entries[1..])
  }

  predicate Contains(s: string, pat: string) { exists i: nat :: i <= |s| && At(s, pat, i) }

  /** A printed line parses back to its entry exactly if the key has no separator in it. */
  lemma ParsePrintIff(e: Entry)
    ensures Parse(Print(e)) == Some(e) <==> !Contains(e.key, SEP)
  {
    var line := Print(e);
    assert line[|e.key|..|e.key| + 2] == SEP;
    assert At(line, SEP, |e.key|);
    var k := Index(line, SEP).value;
    if Contains(e.key, SEP) {
      var i: nat :| i <= |e.key| && At(e.key, SEP, i);
      assert line[i..i + 2] == e.key[i..i + 2];
      assert At(line, SEP, i);
      assert k < |e.key|;
    } else {
      NoSeparatorBefore(e);
      assert k == |e.key|;
      assert line[..k] == e.key && line[k + 2..] == e.value;
    }
  }

  /** A line written with a colon and a blank: the key is what comes before the
      first of them, the value all that comes after; without them there is no entry. */
  lemma ColonSpaceSeparates(key: string, value: string, line: string)
    requires !Contains(key, ": ") && !Contains(line, ": ")
    ensures Parse(key + ": " + value) == Some(Entry(key, value))
    ensures Parse(line).None?
  {
    ParsePrintIff(Entry(key, value));
    assert key + ": " + value == Print(Entry(key, value));
    assert Index(line, SEP).Some? ==> At(line, SEP, Index(line, SEP).value);
  }

  /** A separator cannot begin inside the key and end in the printed separator. */
  lemma NoSeparatorBefore(e: Entry)
    requires !Contains(e.key, SEP)
    ensures forall i: nat :: i < |e.key| ==> !At(Print(e), SEP, i)
  {
    var line := Print(e);
    forall i: nat | i < |e.key| ensures !At(line, SEP, i) {
      if i + 2 <= |e.key| {
        assert line[i..i + 2] == e.key[i..i + 2];
        assert !At(e.key, SEP, i);
      } else {
        assert line[i..i + 2][1] == line[i + 1] == ':';
      }
    }
  }

  /** The first entry with the key decides. */
  function FirstValue(entries: seq<Entry>, key: string): Option<string> {
    if entries == [] then None
    else if entries[0].key == key then Some(entries[0].value)
    else FirstValue(entries[1..], key)
  }

  lemma {:induction false} FirstValueSnoc(entries: seq<Entry>, e: Entry, key: string)
    ensures FirstValue(entries + [e], key) ==
            if FirstValue(entries, key).Some? then FirstValue(entries, key)
            else if e.key == key then Some(e.value) else None
  {
    if entries != [] {
      assert (entries + [e])[1..] == entries[1..] + [e];
      FirstValueSnoc(entries[1..], e, key);
    }
  }

  /** The entries of a list of lines: those with a separator. */
  function Entries(lines: seq<string>): seq<Entry>
    decreases |lines|
  {
    if lines == [] then []
    else
      Entries(lines[..|lines| - 1]) +
      match Parse(lines[|lines| - 1])
      case None => []
      case Some(e) => [e]
  }

  /** Loading any lines: each key gets the value of the first line that has it,
      and lines without a separator do not matter. */
  lemma {:induction false} LoadIsFirstMatch(lines: seq<string>, key: string)
    ensures var dict := LoadLines(map[], lines);
            match FirstValue(Entries(lines), key)
            case None => key !in dict
            case Some(v) => key in dict && dict[key] == v
    decreases |lines|
  {
    if lines != [] {
      var init := lines[..|lines| - 1];
      LoadIsFirstMatch(init, key);
      match Parse(lines[|lines| - 1]) {
        case None =>
          assert Entries(lines) == Entries(init);
        case Some(e) =>
          FirstValueSnoc(Entries(init), e, key);
      }
    }
  }

  lemma FirstLineEnd(line: string, rest: string)
    requires !Contains(line, "\n")
    ensures Index(line + "\n" + rest, "\n") == Some(|line|)
  {
    var text := line + "\n" + rest;
    assert text[|line|..|line| + 1] == "\n";
    assert At(text, "\n", |line|);
    forall i | 0 <= i < |line| ensures !At(text, "\n", i) {
      assert text[i..i + 1] == line[i..i + 1];
      assert !At(line, "\n", i);
    }
  }

  lemma FirstLine(line: string, rest: string)
    requires !Contains(line, "\n")
    ensures Lines(line + "\n" + rest) == [line] + Lines(rest)
  {
    FirstLineEnd(line, rest);
    var text := line + "\n" + rest;
    assert text[..|line|] == line && text[|line| + 1..] == rest;
    hide Contains, At;
  }

  /** getline undoes the line ends, whatever the lines contain besides newlines. */
  lemma {:induction false} LinesOfPrint(entries: seq<Entry>)
    requires forall i :: 0 <= i < |entries| ==> !Contains(Print(entries[i]), "\n")
    ensures |Lines(PrintAll(entries))| == |entries|
    ensures forall i :: 0 <= i < |entries| ==> Lines(PrintAll(entries))[i] == Print(entries[i])
  {
    if entries != [] {
      var line, rest := Print(entries[0]), PrintAll(entries[1..]);
      FirstLine(line, rest);
      hide Lines, Contains, Print;
      LinesOfPrint(entries[1..]);
    }
  }

  lemma {:induction false} EntriesOfPrint(entries: seq<Entry>, lines: seq<string>)
    requires |lines| == |entries|
    requires forall i :: 0 <= i < |entries| ==> lines[i] == Print(entries[i]) && !Contains(entries[i].key, SEP)
    ensures Entries(lines) == entries
    decreases |lines|
  {
    if lines != [] {
      var n := |lines| - 1;
      ParsePrintIff(entries[n]);
      EntriesOfPrint(entries[..n], lines[..n]);
      assert entries == entries[..n] + [entries[n]];
    }
  }

  /** The lines, each with a newline after it. */
  function Unlines(lines: seq<string>): string {
    if lines == [] then "" else lines[0] + "\n" + Unlines(lines[1..])
  }

  predicate EndsLine(text: string) {
    text == "" || text[|text| - 1] == '\n'
  }

  /** A text with a newline in it is a first line, that newline and the rest. */
  lemma SplitLine(text: string) returns (line: string, rest: string)
    requires Index(text, "\n").Some?
    ensures text == line + "\n" + rest && !Contains(line, "\n") && |rest| < |text|
    ensures EndsLine(text) <==> EndsLine(rest)
  {
    var k := Index(text, "\n").value;
    FirstNewline(text, k);
    line, rest := text[..k], text[k + 1..];
    hide Index, Contains;
    assert rest != "" ==> rest[|rest| - 1] == text[|text| - 1];
    assert rest == "" ==> text[|text| - 1] == text[k];
  }

  /** getline loses nothing: the lines of any text, put together again, are the
      text, with a newline at the end if it had none. As no line contains a
      newline, this says what the lines are. */
  lemma {:induction false} LinesGiveTextBack(text: string)
    ensures Unlines(Lines(text)) == if EndsLine(text) then text else text + "\n"
    decreases |text|
  {
    if text == "" {
    } else if Index(text, "\n").None? {
      LastIsNewline(text);
      assert [text][1..] == [];
    } else {
      var line, rest := SplitLine(text);
      FirstLine(line, rest);
      hide Index, Contains, Lines, EndsLine;
      LinesGiveTextBack(rest);
      assert ([line] + Lines(rest))[1..] == Lines(rest);
    }
  }

  lemma LastIsNewline(text: string)
    requires text != "" && Index(text, "\n").None?
    ensures !EndsLine(text)
  {
    var n := |text| - 1;
    assert text[n..n + 1] == [text[n]];
    assert !At(text, "\n", n);
  }

  /** A last line counts whether a newline follows it or not. */
  lemma FinalNewlineIsOptional(text: string, line: string)
    requires line != "" && !Contains(line, "\n") && EndsLine(text)
    ensures Lines(line) == [line]
    ensures Lines(text + line) == Lines(text + line + "\n") == Lines(text) + [line]
  {
    LoneLine(line);
    LinesAppend(text, line);
    LinesAppend(text, line + "\n");
    FirstLine(line, "");
    assert line + "\n" + "" == line + "\n" && text + line + "\n" == text + (line + "\n");
  }

  lemma LoneLine(line: string)
    requires line != "" && !Contains(line, "\n")
    ensures Lines(line) == [line]
  {
  }

  lemma {:induction false} LinesAppend(text: string, more: string)
    requires EndsLine(text)
    ensures Lines(text + more) == Lines(text) + Lines(more)
    decreases |text|
  {
    if text == "" {
      assert text + more == more;
    } else {
      if Index(text, "\n").None? {
        LastIsNewline(text);
      }
      var line, rest := SplitLine(text);
      hide Index, Contains, Lines, EndsLine;
      LinesAppend(rest, more);
      OneMoreLine(line, rest, more);
    }
  }

  lemma OneMoreLine(line: string, rest: string, more: string)
    requires !Contains(line, "\n") && Lines(rest + more) == Lines(rest) + Lines(more)
    ensures Lines(line + "\n" + rest + more) == Lines(line + "\n" + rest) + Lines(more)
  {
    hide Contains, Lines;
    FirstLine(line, rest);
    FirstLine(line, rest + more);
    assert line + "\n" + (rest + more) == line + "\n" + rest + more;
  }

  lemma FirstNewline(text: string, k: nat)
    requires Index(text, "\n") == Some(k)
    ensures k < |text| && text[k] == '\n' && !Contains(text[..k], "\n")
  {
    assert text[k..k + 1] == "\n";
    if Contains(text[..k], "\n") {
      var i: nat :| i <= k && At(text[..k], "\n", i);
      assert text[i..i + 1] == text[..k][i..i + 1];
      assert At(text, "\n", i);
    }
  }

  /** No line that getline returns has a newline in it. */
  lemma {:induction false} LinesHaveNoNewline(text: string, i: nat)
    requires i < |Lines(text)|
    ensures !Contains(Lines(text)[i], "\n")
    decreases |text|
  {
    var k := Index(text, "\n");
    if k.Some? {
      if i > 0 {
        LinesHaveNoNewline(text[k.value + 1..], i - 1);
      } else if Contains(text[..k.value], "\n") {
        var j: nat :| j <= k.value && At(text[..k.value], "\n", j);
        assert text[j..j + 1] == text[..k.value][j..j + 1];
        assert At(text, "\n", j);
      }
    }
  }

  /** The key of a parsed line has no separator in it, and the entry prints as the line. */
  lemma ParsedPrintsBack(line: string)
    ensures Parse(line).Some? ==> Print(Parse(line).value) == line && !Contains(Parse(line).value.key, SEP)
  {
    if Parse(line).Some? {
      var k := Index(line, SEP).value;
      assert line == line[..k] + line[k..k + 2] + line[k + 2..];
      if Contains(line[..k], SEP) {
        var i: nat :| i <= k && At(line[..k], SEP, i);
        assert line[i..i + 2] == line[..k][i..i + 2];
        assert At(line, SEP, i);
      }
    }
  }

  /** Every entry comes from one of the lines. */
  lemma {:induction false} EntryHasLine(lines: seq<string>, i: nat)
    requires i < |Entries(lines)|
    ensures Print(Entries(lines)[i]) in lines && !Contains(Entries(lines)[i].key, SEP)
    decreases |lines|
  {
    var init, last := lines[..|lines| - 1], lines[|lines| - 1];
    ParsedPrintsBack(last);
    if i < |Entries(init)| {
      EntryHasLine(init, i);
    }
  }

  /** The entries that a line can hold: no newline anywhere, no separator in the key. */
  predicate Printable(e: Entry) {
    !Contains(Print(e), "\n") && !Contains(e.key, SEP)
  }

  /** Main result on the file format: a list of entries is what its printed file
      loads as, exactly if every entry is printable. */
  lemma LoadsBackIff(entries: seq<Entry>)
    ensures Entries(Lines(PrintAll(entries))) == entries <==> forall i :: 0 <= i < |entries| ==> Printable(entries[i])
  {
    hide Lines, PrintAll, Entries, Contains, Print;
    var lines := Lines(PrintAll(entries));
    if forall i :: 0 <= i < |entries| ==> Printable(entries[i]) {
      LinesOfPrint(entries);
      EntriesOfPrint(entries, lines);
    } else if Entries(lines) == entries {
      var i :| 0 <= i < |entries| && !Printable(entries[i]);
      EntryHasLine(lines, i);
      var k :| 0 <= k < |lines| && lines[k] == Print(entries[i]);
      LinesHaveNoNewline(PrintAll(entries), k);
      assert false;
    }
  }

  /** The two ways to fail: a separator in the key, and a newline. */
  lemma TwoThatDoNotLoadBack()
    ensures var e := Entry("a: b", "c"); Entries(Lines(PrintAll([e]))) != [e]
    ensures var e := Entry("k", "a\nb"); Entries(Lines(PrintAll([e]))) != [e]
  {
    var e, f := Entry("a: b", "c"), Entry("k", "a\nb");
    assert At(e.key, SEP, 1);
    assert At(Print(f), "\n", 4);
    assert !Printable([e][0]) && !Printable([f][0]);
    LoadsBackIff([e]);
    LoadsBackIff([f]);
  }

  /** Main result: loading what PrintAll writes and translating a word gives the
      value of the first entry with that key, or "None". */
  lemma LoadInvertsPrint(entries: seq<Entry>, word: string)
    requires forall i :: 0 <= i < |entries| ==> Printable(entries[i])
    ensures Translation(LoadLines(map[], Lines(PrintAll(entries))), word) ==
            match FirstValue(entries, word) case Some(v) => v case None => "None"
  {
    LoadsBackIff(entries);
    LoadIsFirstMatch(Lines(PrintAll(entries)), word);
  }

  lemma {:induction false} LoadLinesAppend(dict: map<string, string>, a: seq<string>, b: seq<string>)
    ensures LoadLines(LoadLines(dict, a), b) == LoadLines(dict, a + b)
    decreases |b|
  {
    if b == [] {
      assert a + b == a;
    } else {
      assert (a + b)[..|a + b| - 1] == a + b[..|b| - 1];
      LoadLinesAppend(dict, a, b[..|b| - 1]);
    }
  }

  class Dict {
    var dict: map<string, string>
    ghost var lines: seq<string>

    /** The map is what the lines loaded so far say. */
    ghost predicate Valid()
      reads this
    {
      dict == LoadLines(map[], lines)
    }

    /** Before LoadDict. */
    constructor ()
      ensures Valid() && lines == []
    {
      dict, lines := map[], [];
    }

    /** `file` is the text of the dictionary file, None if it cannot be opened:
        `exits` is then true, the program ends. */
    method LoadDict(file: Option<string>) returns (exits: bool)
      requires Valid()
      modifies this
      ensures Valid() && exits == file.None?
      ensures lines == if file.None? then old(lines) else old(lines) + Lines(file.value)
    {
      if file.None? {
        return true;
      }
      var text := Lines(file.value);
      for i := 0 to |text|
        invariant lines == old(lines) && dict == LoadLines(old(dict), text[..i])
      {
        assert text[..i + 1][..i] == text[..i];
        var sepPos := Index(text[i], SEP);
        if sepPos.Some? {
          var k := text[i][..sepPos.value];
          var v := text[i][sepPos.value + |SEP|..];
          if k !in dict {
            dict := dict[k := v];
          }
        }
      }
      assert text[..|text|] == text;
      LoadLinesAppend(map[], lines, text);
      lines := lines + text;
      exits := false;
    }

    /** The value of the first loaded line that has the word as its key, or "None". */
    method Translate(word: string) returns (r: string)
      requires Valid()
      ensures r == match FirstValue(Entries(lines), word) case Some(v) => v case None => "None"
    {
      LoadIsFirstMatch(lines, word);
      if word in dict {
        r := dict[word];
      } else {
        r := "None";
      }
    }
  }
}
