/** What the two smaps scanners compute, stated on the mappings a dump describes. */
module SmapsLaws {
  import opened Prelude
  import opened Smaps

  predicate Blanks(s: string) { forall k :: 0 <= k < |s| ==> s[k] == ' ' }

  predicate NoSpaces(s: string) { forall k :: 0 <= k < |s| ==> !IsSpace(s[k]) }

  // ---------------------------------------------------------------- dumps as mappings

  /** `<name>:` `<gap>` `<digits>` `<tail>`, as in "Rss:      4 kB". */
  datatype FieldText = FieldText(word: string, gap: string, digits: string, tail: string) {
    function Name(): string { word + ":" }

    predicate Ok() {
      && word != "" && word != "VmFlags"
      && NoSpaces(word) && '-' !in word && ':' !in word
      && gap != "" && Blanks(gap)
      && digits != "" && AllDigits(digits) && Decimal(digits) < U64
      && (tail == "" || tail[0] == ' ') && '\n' !in tail
    }

    function Line(eol: string): string { Name() + gap + digits + tail + eol }
  }

  /** A well-formed field line. */
  type Field = f: FieldText | f.Ok() witness FieldText("x", " ", "0", "")

  /** A header `<addr> <rest>`, its fields, and the VmFlags line if the kernel writes one. */
  datatype MappingText = MappingText(addr: string, rest: string, fields: seq<Field>, flags: Option<string>) {
    predicate Ok() {
      && '-' in addr && ':' !in addr && NoSpaces(addr) && '\n' !in rest
      && (flags.Some? ==> (flags.value == "" || flags.value[0] == ' ') && '\n' !in flags.value)
    }

    function Header(eol: string): string { addr + " " + rest + eol }

    /** Whether the header line mentions `needle`. */
    predicate Names(needle: Option<string>) { needle.Some? && Contains(Header(""), needle.value) }

    function Lines(eol: string): seq<string> {
      [Header(eol)] + FieldLines(fields, eol) + (if flags.Some? then ["VmFlags:" + flags.value + eol] else [])
    }
  }

  function FieldLines(fields: seq<Field>, eol: string): seq<string> {
    if fields == [] then [] else FieldLines(fields[..|fields| - 1], eol) + [fields[|fields| - 1].Line(eol)]
  }

  /** A well-formed mapping. */
  type Mapping = m: MappingText | m.Ok() witness MappingText("-", "", [], None)

  /** Every mapping whose header mentions `needle` ends with a VmFlags line. */
  predicate Closed(ms: seq<Mapping>, needle: Option<string>) {
    forall k :: 0 <= k < |ms| && ms[k].Names(needle) ==> ms[k].flags.Some?
  }

  function Lines(ms: seq<Mapping>, eol: string): seq<string> {
    if ms == [] then [] else Lines(ms[..|ms| - 1], eol) + ms[|ms| - 1].Lines(eol)
  }

  /** The dump itself: every line followed by a newline. */
  function Text(lines: seq<string>): string {
    if lines == [] then "" else lines[0] + "\n" + Text(lines[1..])
  }

  function Dump(ms: seq<Mapping>): string { Text(Lines(ms, "")) }

  // ---------------------------------------------------------------- what should be counted

  /** What one field says about counter `c`. */
  function Says(f: Field, c: Counter): nat {
    if f.Name() == Label(c) then Decimal(f.digits) else 0
  }

  /** What the fields of one mapping say about it. */
  function Of(fields: seq<Field>, c: Counter): nat {
    if fields == [] then 0 else Of(fields[..|fields| - 1], c) + Says(fields[|fields| - 1], c)
  }

  /** The sum of `c` over exactly the mappings that mention `needle`. */
  function Sum(ms: seq<Mapping>, c: Counter, needle: Option<string>): nat
  {
    if ms == [] then 0
    else
      var m := ms[|ms| - 1];
      Sum(ms[..|ms| - 1], c, needle) + (if m.Names(needle) then Of(m.fields, c) else 0)
  }

  /** Some mapping that mentions `needle` has not met a VmFlags line yet. */
  predicate LeftOpen(ms: seq<Mapping>, needle: Option<string>) {
    ms != [] && var m := ms[|ms| - 1]; m.flags.None? && (m.Names(needle) || LeftOpen(ms[..|ms| - 1], needle))
  }

  /** The sum of `c` over the other mappings that follow such an open one. */
  function Leaked(ms: seq<Mapping>, c: Counter, needle: Option<string>): nat
  {
    if ms == [] then 0
    else
      var m, before := ms[|ms| - 1], ms[..|ms| - 1];
      Leaked(before, c, needle) + (if !m.Names(needle) && LeftOpen(before, needle) then Of(m.fields, c) else 0)
  }

  // ---------------------------------------------------------------- lines of text

  /** Lines with or without their newline. */
  type Eol = s: string | s == "" || s == "\n"

  lemma {:induction false} IndexOfFirst(s: string, c: char, k: nat)
    requires k < |s| && s[k] == c && c !in s[..k]
    ensures IndexOf(s, c) == k
  {
    assert forall j :: 0 <= j < k ==> s[j] == s[..k][j];
  }

  lemma {:induction false} ContainsUpToNewline(s: string, needle: string)
    requires '\n' !in needle
    ensures Contains(s + "\n", needle) == Contains(s, needle)
  {
    var t := s + "\n";
    if needle == "" {
      assert t[..0] == s[..0] == "";
    } else if |s| >= |needle| {
      assert t[..|needle|] == s[..|needle|];
      if s[..|needle|] != needle {
        assert t[1..] == s[1..] + "\n";
        ContainsUpToNewline(s[1..], needle);
      }
    } else {
      assert t[|s|] == '\n' && t[..|t|] == t;
      assert t != needle;
    }
  }

  lemma MentionIgnoresNewline(m: Mapping, eol: Eol, needle: string)
    requires '\n' !in needle
    ensures Contains(m.Header(eol), needle) == m.Names(Some(needle))
  {
    ContainsUpToNewline(m.Header(""), needle);
    assert m.Header("") + "\n" == m.Header("\n");
  }

  lemma HeadersLookLikeHeaders(m: Mapping, eol: Eol)
    ensures HeaderLike(m.Header(eol))
  {
    var line := m.Header(eol);
    assert line[|m.addr|] == ' ' && line[..|m.addr|] == m.addr;
    IndexOfFirst(line, ' ', |m.addr|);
    var k :| 0 <= k < |m.addr| && m.addr[k] == '-';
    assert line[k] == '-';
  }

  lemma NotWithin(s: string, c: char, n: nat)
    requires n <= |s| && c !in s[..n]
    ensures IndexOf(s, c) >= n
  {
    assert forall j :: 0 <= j < n ==> s[j] == s[..n][j];
  }

  /** No '-' before the first blank, so not a header. */
  lemma NotAHeader(head: string, rest: string)
    requires '-' !in head && ' ' !in head
    requires rest == "" || rest[0] == ' ' || ' ' !in rest
    ensures !HeaderLike(head + rest)
  {
    var line := head + rest;
    assert line[..|head|] == head;
    NotWithin(line, '-', |head|);
    if rest != "" && rest[0] == ' ' {
      IndexOfFirst(line, ' ', |head|);
    } else {
      assert ' ' !in line && line[..|line|] == line;
      NotWithin(line, ' ', |line|);
    }
  }

  lemma FlagsLineIsNotAHeader(m: Mapping, eol: Eol)
    requires m.flags.Some?
    ensures var line := "VmFlags:" + m.flags.value + eol; !HeaderLike(line) && "VmFlags:" <= line
  {
    var rest := m.flags.value + eol;
    assert "VmFlags:" + m.flags.value + eol == "VmFlags:" + rest;
    NotAHeader("VmFlags:", rest);
  }

  lemma FieldLineIsPlain(f: Field, eol: Eol)
    ensures !HeaderLike(f.Line(eol)) && !("VmFlags:" <= f.Line(eol))
  {
    var rest := f.gap + f.digits + f.tail + eol;
    assert f.Line(eol) == f.Name() + rest;
    NotAHeader(f.Name(), rest);
    if "VmFlags:" <= f.Line(eol) {
      PrefixMeansName(f, eol, "VmFlags");
    }
  }

  /** A line starts with `<word>:` only when that is the name of its field. */
  lemma PrefixMeansName(f: Field, eol: Eol, word: string)
    requires ' ' !in word && ':' !in word
    ensures word + ":" <= f.Line(eol) <==> f.word == word
  {
    var line := f.Line(eol);
    assert line[..|f.word|] == f.word && line[|f.word|] == ':' && line[..|f.word| + 1] == f.word + ":";
    IndexOfFirst(line, ':', |f.word|);
    if word + ":" <= line {
      assert line[|word|] == (word + ":")[|word|] && line[..|word|] == (word + ":")[..|word|] == word;
      IndexOfFirst(line, ':', |word|);
    }
  }

  lemma {:induction false} BlanksAreSkipped(gap: string, rest: string)
    requires Blanks(gap)
    requires rest != "" && !IsSpace(rest[0])
    ensures SkipBlanks(gap + rest) == rest == SkipSpaces(gap + rest)
  {
    if gap == "" {
      assert gap + rest == rest;
    } else {
      assert (gap + rest)[1..] == gap[1..] + rest;
      BlanksAreSkipped(gap[1..], rest);
    }
  }

  lemma {:induction false} DigitsEnd(digits: string, rest: string)
    requires AllDigits(digits) && (rest == "" || !IsDigit(rest[0]))
    ensures Digits(digits + rest) == |digits|
  {
    if digits == "" {
      assert digits + rest == rest;
    } else {
      assert (digits + rest)[1..] == digits[1..] + rest;
      DigitsEnd(digits[1..], rest);
    }
  }

  lemma {:induction false} WordEnds(word: string, rest: string)
    requires NoSpaces(word) && (rest == "" || IsSpace(rest[0]))
    ensures Word(word + rest) == |word|
  {
    if word == "" {
      assert word + rest == rest;
    } else {
      assert (word + rest)[1..] == word[1..] + rest;
      WordEnds(word[1..], rest);
    }
  }

  /** The word of the label of `c`. */
  function LabelWord(c: Counter): string { Label(c)[..|Label(c)| - 1] }

  lemma LabelsAreWords(c: Counter)
    ensures LabelWord(c) + ":" == Label(c) && ' ' !in LabelWord(c) && ':' !in LabelWord(c)
  {
    var text := Label(c);
    assert text[|text| - 1] == ':' && ':' !in text[..|text| - 1] && ' ' !in text;
  }

  lemma NameOfWord(f: Field, word: string)
    ensures f.Name() == word + ":" <==> f.word == word
  {
    assert f.Name()[..|f.word|] == f.word && (word + ":")[..|word|] == word;
  }

  /** The words that the kernel writes. */
  lemma WordsOfCounters(f: Field)
    ensures f.Name() == Label(Rss) <==> f.word == "Rss"
    ensures f.Name() == Label(Pss) <==> f.word == "Pss"
    ensures f.Name() == Label(SharedClean) <==> f.word == "Shared_Clean"
    ensures f.Name() == Label(SharedDirty) <==> f.word == "Shared_Dirty"
    ensures f.Name() == Label(PrivateClean) <==> f.word == "Private_Clean"
    ensures f.Name() == Label(PrivateDirty) <==> f.word == "Private_Dirty"
  {
    assert Label(Rss) == "Rss" + ":" && Label(Pss) == "Pss" + ":";
    assert Label(SharedClean) == "Shared_Clean" + ":" && Label(SharedDirty) == "Shared_Dirty" + ":";
    assert Label(PrivateClean) == "Private_Clean" + ":" && Label(PrivateDirty) == "Private_Dirty" + ":";
    hide Label, FieldText.Name;
    NameOfWord(f, "Rss");
    NameOfWord(f, "Pss");
    NameOfWord(f, "Shared_Clean");
    NameOfWord(f, "Shared_Dirty");
    NameOfWord(f, "Private_Clean");
    NameOfWord(f, "Private_Dirty");
  }

  lemma WordsDecideNames(f: Field, c: Counter)
    ensures f.word == LabelWord(c) <==> f.Name() == Label(c)
  {
    assert f.Name()[..|f.word|] == f.word;
    LabelsAreWords(c);
  }

  lemma {:induction false} SpacesAreSkipped(spaces: string, rest: string)
    requires forall c <- spaces :: IsSpace(c)
    requires rest == "" || !IsSpace(rest[0])
    ensures SkipSpaces(spaces + rest) == rest
  {
    if spaces == "" {
      assert spaces + rest == rest;
    } else {
      assert (spaces + rest)[1..] == spaces[1..] + rest;
      SpacesAreSkipped(spaces[1..], rest);
    }
  }

  lemma SpacesDoNotMatter(spaces: string, t: string)
    requires (forall c <- spaces :: IsSpace(c)) && t != "" && !IsSpace(t[0])
    ensures Strtoull(spaces + t) == Strtoull(t)
  {
    SpacesAreSkipped(spaces, t);
    SpacesAreSkipped("", t);
    assert "" + t == t;
    hide SkipSpaces, IsSpace;
  }

  lemma SignedReads(sign: string, digits: string, rest: string)
    requires sign == "" || sign == "+" || sign == "-"
    requires digits != "" && AllDigits(digits) && (rest == "" || !IsDigit(rest[0]))
    ensures Strtoull(sign + (digits + rest)) == Some(
              if Decimal(digits) >= U64 then U64 - 1
              else if sign == "-" then (U64 - Decimal(digits)) % U64
              else Decimal(digits))
  {
    hide Decimal;
    var number := digits + rest;
    var t := sign + number;
    assert t == if sign == "" then number else [sign[0]] + number;
    assert SkipSpaces(t) == t;
    DigitsEnd(digits, rest);
    assert number[..|digits|] == digits;
    assert t[|sign|..] == number;
  }

  /** What strtoull makes of a number: it saturates, and a minus sign negates modulo 2^64. */
  lemma StrtoullReads(spaces: string, sign: string, digits: string, rest: string)
    requires (forall c <- spaces :: IsSpace(c)) && (sign == "" || sign == "+" || sign == "-")
    requires digits != "" && AllDigits(digits) && (rest == "" || !IsDigit(rest[0]))
    ensures Strtoull(spaces + (sign + (digits + rest))) == Some(
              if Decimal(digits) >= U64 then U64 - 1
              else if sign == "-" then (U64 - Decimal(digits)) % U64
              else Decimal(digits))
  {
    hide Decimal, Strtoull;
    var t := sign + (digits + rest);
    assert t[0] == if sign == "" then digits[0] else sign[0];
    SpacesDoNotMatter(spaces, t);
    SignedReads(sign, digits, rest);
  }

  lemma NumberReads(digits: string, rest: string)
    requires digits != "" && AllDigits(digits) && Decimal(digits) < U64
    requires rest == "" || !IsDigit(rest[0])
    ensures Strtoull(digits + rest) == Some(Decimal(digits))
  {
    hide Decimal, Strtoull;
    SignedReads("", digits, rest);
    assert "" + (digits + rest) == digits + rest;
  }

  lemma NumberOfField(f: Field, eol: Eol)
    ensures Strtoull(SkipBlanks(f.Line(eol)[|f.Name()|..])) == Some(Decimal(f.digits))
  {
    hide Decimal, Strtoull, SkipBlanks;
    var rest := f.tail + eol;
    var number := f.digits + rest;
    assert f.Line(eol)[|f.Name()|..] == f.gap + number;
    BlanksAreSkipped(f.gap, number);
    NumberReads(f.digits, rest);
  }

  lemma CFieldReads(f: Field, eol: Eol, c: Counter)
    ensures KibField(f.Line(eol), Label(c)) == if f.Name() == Label(c) then Some(Decimal(f.digits)) else None
  {
    hide Label, Strtoull, SkipBlanks, Decimal;
    LabelsAreWords(c);
    WordsDecideNames(f, c);
    PrefixMeansName(f, eol, LabelWord(c));
    if f.Name() == Label(c) {
      NumberOfField(f, eol);
    }
  }

  /** Splitting off a word that starts the text. */
  lemma FirstWord(word: string, rest: string)
    requires word != "" && NoSpaces(word) && (rest == "" || IsSpace(rest[0]))
    ensures Words(word + rest) == [word] + Words(rest)
  {
    var line := word + rest;
    assert SkipSpaces(line) == line;
    WordEnds(word, rest);
    assert line[..|word|] == word && line[|word|..] == rest;
  }

  lemma WordsAfterBlanks(gap: string, rest: string)
    requires Blanks(gap) && rest != "" && !IsSpace(rest[0])
    ensures Words(gap + rest) == Words(rest)
  {
    BlanksAreSkipped(gap, rest);
    BlanksAreSkipped("", rest);
    assert "" + rest == rest;
  }

  lemma GoFieldReads(f: Field, eol: Eol)
    ensures GoField(f.Line(eol)) == Some((f.Name(), Decimal(f.digits)))
  {
    hide Words, Decimal;
    var rest := f.tail + eol;
    var number := f.digits + rest;
    FirstWord(f.Name(), f.gap + number);
    assert f.Line(eol) == f.Name() + (f.gap + number);
    WordsAfterBlanks(f.gap, number);
    FirstWord(f.digits, rest);
  }

  // ---------------------------------------------------------------- the C scanner on mappings

  lemma WrapOnce(a: nat, b: nat)
    ensures Wrap(Wrap(a) + b) == Wrap(a + b)
  {
  }

  predicate OneLine(needle: Option<string>) { needle.Some? ==> '\n' !in needle.value }

  lemma AddFieldReads(t: Totals, f: Field, eol: Eol, d: Counter, c: Counter)
    ensures Get(AddField(t, f.Line(eol), d), c)
            == if d == c && f.Name() == Label(c) then Wrap(Get(t, c) + Decimal(f.digits)) else Get(t, c)
  {
    hide KibField, Decimal, Label;
    CFieldReads(f, eol, d);
  }

  lemma AddFieldsReads(t: Totals, f: Field, eol: Eol, c: Counter)
    ensures Get(AddFields(t, f.Line(eol)), c)
            == if f.Name() == Label(c) then Wrap(Get(t, c) + Decimal(f.digits)) else Get(t, c)
  {
    hide AddField, Get, Decimal, Label;
    var line := f.Line(eol);
    var t1 := AddField(t, line, Rss);
    var t2 := AddField(t1, line, Pss);
    var t3 := AddField(t2, line, SharedClean);
    var t4 := AddField(t3, line, SharedDirty);
    var t5 := AddField(t4, line, PrivateClean);
    AddFieldReads(t, f, eol, Rss, c);
    AddFieldReads(t1, f, eol, Pss, c);
    AddFieldReads(t2, f, eol, SharedClean, c);
    AddFieldReads(t3, f, eol, SharedDirty, c);
    AddFieldReads(t4, f, eol, PrivateClean, c);
    AddFieldReads(t5, f, eol, PrivateDirty, c);
  }

  lemma CFieldStep(s: Scan, f: Field, eol: Eol, needle: Option<string>, c: Counter)
    ensures var e := CStep(s, f.Line(eol), needle);
            && e.inBlock == s.inBlock
            && Get(e.totals, c) == if s.inBlock && f.Name() == Label(c) then Wrap(Get(s.totals, c) + Decimal(f.digits))
                                   else Get(s.totals, c)
  {
    hide HeaderLike, AddFields, Get, Decimal, Label;
    FieldLineIsPlain(f, eol);
    AddFieldsReads(s.totals, f, eol, c);
  }

  lemma {:induction false} CScanSplit(s: Scan, a: seq<string>, b: seq<string>, needle: Option<string>)
    ensures CScan(s, a + b, needle) == CScan(CScan(s, a, needle), b, needle)
  {
    hide CStep;
    if b == [] {
      assert a + b == a;
    } else {
      var n := |a + b| - 1;
      assert (a + b)[..n] == a + b[..|b| - 1];
      CScanSplit(s, a, b[..|b| - 1], needle);
    }
  }

  lemma CNextField(s: Scan, f: Field, eol: Eol, needle: Option<string>, c: Counter, soFar: nat)
    requires Get(s.totals, c) == Wrap(soFar)
    ensures var e := CStep(s, f.Line(eol), needle);
            && e.inBlock == s.inBlock
            && Get(e.totals, c) == Wrap(soFar + if s.inBlock then Says(f, c) else 0)
  {
    hide CStep, Get, Decimal, Label, Wrap;
    WrapOnce(soFar, 0);
    WrapOnce(soFar, Decimal(f.digits));
    CFieldStep(s, f, eol, needle, c);
  }

  lemma CScanSnoc(s: Scan, lines: seq<string>, line: string, needle: Option<string>)
    ensures CScan(s, lines + [line], needle) == CStep(CScan(s, lines, needle), line, needle)
  {
    assert (lines + [line])[..|lines|] == lines;
  }

  lemma CNoFields(s: Scan, eol: Eol, needle: Option<string>, c: Counter)
    ensures CScan(s, FieldLines([], eol), needle) == s && Of([], c) == 0
  {
  }

  lemma {:induction false} CFields(s: Scan, fields: seq<Field>, eol: Eol, needle: Option<string>, c: Counter)
    requires Wrap(Get(s.totals, c)) == Get(s.totals, c)
    ensures var e := CScan(s, FieldLines(fields, eol), needle);
            && e.inBlock == s.inBlock
            && Get(e.totals, c) == Wrap(Get(s.totals, c) + if s.inBlock then Of(fields, c) else 0)
  {
    hide CScan, CStep, Get, Says, Wrap, FieldText.Line, FieldText.Ok;
    CNoFields(s, eol, needle, c);
    if fields != [] {
      var before, f := fields[..|fields| - 1], fields[|fields| - 1];
      CFields(s, before, eol, needle, c);
      CScanSnoc(s, FieldLines(before, eol), f.Line(eol), needle);
      CNextField(CScan(s, FieldLines(before, eol), needle), f, eol, needle, c,
                  Get(s.totals, c) + if s.inBlock then Of(before, c) else 0);
    }
  }

  lemma CMapping(s: Scan, m: Mapping, eol: Eol, needle: Option<string>, c: Counter)
    requires OneLine(needle) && Wrap(Get(s.totals, c)) == Get(s.totals, c)
    ensures var e := CScan(s, m.Lines(eol), needle);
            Get(e.totals, c) == Wrap(Get(s.totals, c) + if m.Names(needle) then Of(m.fields, c) else 0)
  {
    hide HeaderLike, AddFields, Get, Of, Contains, Wrap, FieldLines;
    var head, body := [m.Header(eol)], FieldLines(m.fields, eol);
    HeadersLookLikeHeaders(m, eol);
    if needle.Some? {
      MentionIgnoresNewline(m, eol, needle.value);
    }
    CScanSplit(s, head, body, needle);
    assert head[..0] == [];
    var s1 := CScan(s, head, needle);
    assert s1 == s.(inBlock := m.Names(needle));
    CFields(s1, m.fields, eol, needle, c);
    if m.flags.Some? {
      var flags := ["VmFlags:" + m.flags.value + eol];
      FlagsLineIsNotAHeader(m, eol);
      CScanSplit(s, head + body, flags, needle);
      assert flags[..0] == [];
    } else {
      assert m.Lines(eol) == head + body;
    }
  }

  lemma CNextMapping(
    s: Scan, lines: seq<string>, m: Mapping, eol: Eol, needle: Option<string>, c: Counter, soFar: nat)
    requires OneLine(needle) && Get(CScan(s, lines, needle).totals, c) == Wrap(soFar)
    ensures Get(CScan(s, lines + m.Lines(eol), needle).totals, c)
            == Wrap(soFar + if m.Names(needle) then Of(m.fields, c) else 0)
  {
    hide Get, CScan, Of, Wrap, Contains, MappingText.Lines;
    CScanSplit(s, lines, m.Lines(eol), needle);
    WrapOnce(soFar, 0);
    WrapOnce(soFar, Of(m.fields, c));
    CMapping(CScan(s, lines, needle), m, eol, needle, c);
  }

  lemma CNoMappings(s: Scan, eol: Eol, needle: Option<string>, c: Counter)
    ensures CScan(s, Lines([], eol), needle) == s && Sum([], c, needle) == 0
  {
  }

  lemma LastMappingLines(ms: seq<Mapping>, eol: Eol)
    requires ms != []
    ensures Lines(ms, eol) == Lines(ms[..|ms| - 1], eol) + ms[|ms| - 1].Lines(eol)
  {
  }

  /** From any point on, the C scanner adds exactly the mappings that mention the needle. */
  lemma {:induction false} CScannerSums(
    s: Scan, ms: seq<Mapping>, eol: Eol, needle: Option<string>, c: Counter)
    requires OneLine(needle) && Wrap(Get(s.totals, c)) == Get(s.totals, c)
    ensures Get(CScan(s, Lines(ms, eol), needle).totals, c) == Wrap(Get(s.totals, c) + Sum(ms, c, needle))
  {
    hide Get, CScan, Of, Wrap, Contains, Lines, MappingText.Lines, MappingText.Names;
    CNoMappings(s, eol, needle, c);
    if ms != [] {
      var before, m := ms[..|ms| - 1], ms[|ms| - 1];
      LastMappingLines(ms, eol);
      CScannerSums(s, before, eol, needle, c);
      CNextMapping(s, Lines(before, eol), m, eol, needle, c, Get(s.totals, c) + Sum(before, c, needle));
    }
  }

  // ---------------------------------------------------------------- the Go scanner on mappings

  const JSA := Some(".jsa")

  lemma GoNamedReads(s: Tally, name: string, v: nat, c: Counter)
    ensures var e := GoNamed(s, name, v);
            && e.inBlock == s.inBlock
            && Get(e.totals, c) == if name == Label(c) then Wrap(Get(s.totals, c) + v) else Get(s.totals, c)
  {
    LabelsDiffer(name);
    hide Wrap, Label;
  }

  /** A name is the label of at most one counter, and "Size:" of none. */
  lemma LabelsDiffer(name: string)
    ensures forall c, d :: Label(c) == name && Label(d) == name ==> c == d
    ensures forall c :: Label(c) != "Size:"
  {
  }

  lemma {:induction false} GoScanSplit(s: Tally, a: seq<string>, b: seq<string>)
    ensures GoScan(s, a + b) == GoScan(GoScan(s, a), b)
  {
    hide GoStep;
    if b == [] {
      assert a + b == a;
    } else {
      var n := |a + b| - 1;
      assert (a + b)[..n] == a + b[..|b| - 1];
      GoScanSplit(s, a, b[..|b| - 1]);
    }
  }

  lemma GoFieldStep(s: Tally, f: Field, eol: Eol, c: Counter)
    ensures var e := GoStep(s, f.Line(eol));
            && e.inBlock == s.inBlock
            && Get(e.totals, c) == if s.inBlock && f.Name() == Label(c) then Wrap(Get(s.totals, c) + Decimal(f.digits))
                                   else Get(s.totals, c)
  {
    hide HeaderLike, GoField, GoNamed, Get, Decimal, Label;
    FieldLineIsPlain(f, eol);
    GoFieldReads(f, eol);
    GoNamedReads(s, f.Name(), Decimal(f.digits), c);
  }

  lemma GoNextField(s: Tally, f: Field, eol: Eol, c: Counter, soFar: nat)
    requires Get(s.totals, c) == Wrap(soFar)
    ensures var e := GoStep(s, f.Line(eol));
            && e.inBlock == s.inBlock
            && Get(e.totals, c) == Wrap(soFar + if s.inBlock then Says(f, c) else 0)
  {
    hide GoStep, Get, Decimal, Label, Wrap;
    WrapOnce(soFar, 0);
    WrapOnce(soFar, Decimal(f.digits));
    GoFieldStep(s, f, eol, c);
  }

  lemma GoScanSnoc(s: Tally, lines: seq<string>, line: string)
    ensures GoScan(s, lines + [line]) == GoStep(GoScan(s, lines), line)
  {
    assert (lines + [line])[..|lines|] == lines;
  }

  lemma GoNoFields(s: Tally, eol: Eol, c: Counter)
    ensures GoScan(s, FieldLines([], eol)) == s && Of([], c) == 0
  {
  }

  lemma {:induction false} GoFields(s: Tally, fields: seq<Field>, eol: Eol, c: Counter)
    requires Wrap(Get(s.totals, c)) == Get(s.totals, c)
    ensures var e := GoScan(s, FieldLines(fields, eol));
            && e.inBlock == s.inBlock
            && Get(e.totals, c) == Wrap(Get(s.totals, c) + if s.inBlock then Of(fields, c) else 0)
  {
    hide GoScan, GoStep, Get, Says, Wrap, FieldText.Line, FieldText.Ok;
    GoNoFields(s, eol, c);
    if fields != [] {
      var before, f := fields[..|fields| - 1], fields[|fields| - 1];
      GoFields(s, before, eol, c);
      GoScanSnoc(s, FieldLines(before, eol), f.Line(eol));
      GoNextField(GoScan(s, FieldLines(before, eol)), f, eol, c,
                   Get(s.totals, c) + if s.inBlock then Of(before, c) else 0);
    }
  }

  /** Inside an open block the Go scanner takes a foreign header for a field line, and finds no counter in it. */
  lemma ForeignHeaderIsNoField(s: Tally, m: Mapping, eol: Eol)
    ensures !("VmFlags:" <= m.Header(eol)) && GoCount(s, m.Header(eol)) == s
  {
    hide Words, ParseUint;
    var line, addr := m.Header(eol), m.addr;
    assert line == addr + (" " + m.rest + eol);
    FirstWord(addr, " " + m.rest + eol);
    assert line[..|addr|] == addr && line[|addr|] == ' ';
    if |addr| > 7 {
      assert line[7] == addr[7];
    } else {
      assert "VmFlags:"[|addr|] != ' ';
    }
  }

  lemma GoMapping(s: Tally, m: Mapping, eol: Eol, c: Counter)
    requires Wrap(Get(s.totals, c)) == Get(s.totals, c)
    ensures var e, counted := GoScan(s, m.Lines(eol)), m.Names(JSA) || s.inBlock;
            && e.inBlock == (counted && m.flags.None?)
            && Get(e.totals, c) == Wrap(Get(s.totals, c) + if counted then Of(m.fields, c) else 0)
  {
    hide HeaderLike, GoField, GoNamed, Get, Of, Contains;
    var head, body := [m.Header(eol)], FieldLines(m.fields, eol);
    HeadersLookLikeHeaders(m, eol);
    MentionIgnoresNewline(m, eol, ".jsa");
    GoScanSplit(s, head, body);
    assert head[..0] == [];
    var s1 := GoScan(s, head);
    ForeignHeaderIsNoField(s, m, eol);
    GoFields(s1, m.fields, eol, c);
    if m.flags.Some? {
      var flags := ["VmFlags:" + m.flags.value + eol];
      FlagsLineIsNotAHeader(m, eol);
      GoScanSplit(s, head + body, flags);
      assert flags[..0] == [];
    } else {
      assert m.Lines(eol) == head + body;
    }
  }

  /** What the last mapping contributes to the Go scanner's sum. */
  lemma LastMappingCounts(ms: seq<Mapping>, c: Counter)
    requires ms != []
    ensures var m, before := ms[|ms| - 1], ms[..|ms| - 1];
            var counted := m.Names(JSA) || LeftOpen(before, JSA);
            && LeftOpen(ms, JSA) == (counted && m.flags.None?)
            && Sum(ms, c, JSA) + Leaked(ms, c, JSA)
               == Sum(before, c, JSA) + Leaked(before, c, JSA) + if counted then Of(m.fields, c) else 0
  {
    hide Contains, Of;
  }

  lemma GoNextMapping(s: Tally, lines: seq<string>, m: Mapping, eol: Eol, c: Counter, soFar: nat)
    requires Get(GoScan(s, lines).totals, c) == Wrap(soFar)
    ensures var e := GoScan(s, lines + m.Lines(eol));
            var counted := m.Names(JSA) || GoScan(s, lines).inBlock;
            && e.inBlock == (counted && m.flags.None?)
            && Get(e.totals, c) == Wrap(soFar + if counted then Of(m.fields, c) else 0)
  {
    hide Get, GoScan, Of, Wrap, Contains, MappingText.Lines;
    GoScanSplit(s, lines, m.Lines(eol));
    WrapOnce(soFar, 0);
    WrapOnce(soFar, Of(m.fields, c));
    GoMapping(GoScan(s, lines), m, eol, c);
  }

  lemma NoMappings(s: Tally, eol: Eol, c: Counter)
    ensures GoScan(s, Lines([], eol)) == s && !LeftOpen([], JSA)
    ensures Sum([], c, JSA) == Leaked([], c, JSA) == 0
  {
  }

  /** The Go scanner adds the same mappings, and whatever an unclosed one lets it count on top. */
  lemma {:induction false} GoScannerSums(s: Tally, ms: seq<Mapping>, eol: Eol, c: Counter)
    requires !s.inBlock && Wrap(Get(s.totals, c)) == Get(s.totals, c)
    ensures var e := GoScan(s, Lines(ms, eol));
            && e.inBlock == LeftOpen(ms, JSA)
            && Get(e.totals, c) == Wrap(Get(s.totals, c) + (Sum(ms, c, JSA) + Leaked(ms, c, JSA)))
  {
    hide Get, GoScan, Of, Wrap, Contains, Sum, Leaked, LeftOpen, Lines, MappingText.Lines, MappingText.Names;
    if ms == [] {
      NoMappings(s, eol, c);
    } else {
      LastMappingLines(ms, eol);
      var before, m := ms[..|ms| - 1], ms[|ms| - 1];
      GoScannerSums(s, before, eol, c);
      LastMappingCounts(ms, c);
      GoNextMapping(s, Lines(before, eol), m, eol, c,
                    Get(s.totals, c) + (Sum(before, c, JSA) + Leaked(before, c, JSA)));
    }
  }

  lemma {:induction false} ClosedDumpsDoNotLeak(ms: seq<Mapping>, c: Counter, needle: Option<string>)
    requires Closed(ms, needle)
    ensures !LeftOpen(ms, needle) && Leaked(ms, c, needle) == 0
  {
    if ms != [] {
      ClosedDumpsDoNotLeak(ms[..|ms| - 1], c, needle);
    }
  }

  lemma {:induction false} SumsAdd(a: seq<Mapping>, b: seq<Mapping>, c: Counter, needle: Option<string>)
    ensures Sum(a + b, c, needle) == Sum(a, c, needle) + Sum(b, c, needle)
  {
    if b == [] {
      assert a + b == a;
    } else {
      var n := |a + b| - 1;
      assert (a + b)[..n] == a + b[..|b| - 1];
      SumsAdd(a, b[..|b| - 1], c, needle);
    }
  }

  // ---------------------------------------------------------------- from text to lines

  predicate Unbroken(lines: seq<string>) { forall k :: 0 <= k < |lines| ==> '\n' !in lines[k] }

  function Ended(lines: seq<string>): seq<string> {
    if lines == [] then [] else [lines[0] + "\n"] + Ended(lines[1..])
  }

  lemma FirstLine(line: string, rest: string)
    requires '\n' !in line
    ensures CLines(line + "\n" + rest) == [line + "\n"] + CLines(rest)
    ensures GoLines(line + "\n" + rest) == [line] + GoLines(rest)
  {
    var text := line + "\n" + rest;
    assert text[|line|] == '\n' && text[..|line|] == line && text[|line| + 1..] == rest;
    IndexOfFirst(text, '\n', |line|);
    assert text[..|line| + 1] == line + "\n";
  }

  lemma {:induction false} TextReadsBack(lines: seq<string>)
    requires Unbroken(lines)
    ensures CLines(Text(lines)) == Ended(lines) && GoLines(Text(lines)) == lines + [""]
  {
    if lines != [] {
      hide CLines, GoLines;
      var rest := lines[1..];
      FirstLine(lines[0], Text(rest));
      TextReadsBack(rest);
      assert [lines[0]] + (rest + [""]) == lines + [""];
    }
  }

  lemma {:induction false} TextsJoin(a: seq<string>, b: seq<string>)
    ensures Text(a + b) == Text(a) + Text(b)
  {
    if a == [] {
      assert a + b == b;
    } else {
      assert (a + b)[1..] == a[1..] + b;
      TextsJoin(a[1..], b);
    }
  }

  lemma {:induction false} EndedJoins(a: seq<string>, b: seq<string>)
    ensures Ended(a + b) == Ended(a) + Ended(b)
  {
    if a == [] {
      assert a + b == b;
    } else {
      assert (a + b)[1..] == a[1..] + b;
      EndedJoins(a[1..], b);
    }
  }

  lemma FieldLineIsUnbroken(f: Field)
    ensures '\n' !in f.Line("") && Ended([f.Line("")]) == [f.Line("\n")]
  {
    hide Decimal;
    assert f.Line("") + "\n" == f.Line("\n");
  }

  lemma {:induction false} FieldLinesAreUnbroken(fields: seq<Field>)
    ensures Unbroken(FieldLines(fields, "")) && Ended(FieldLines(fields, "")) == FieldLines(fields, "\n")
  {
    if fields != [] {
      var before, f := fields[..|fields| - 1], fields[|fields| - 1];
      FieldLinesAreUnbroken(before);
      FieldLineIsUnbroken(f);
      hide FieldText.Line;
      EndedJoins(FieldLines(before, ""), [f.Line("")]);
    }
  }

  lemma MappingLinesAreUnbroken(m: Mapping)
    ensures Unbroken(m.Lines("")) && Ended(m.Lines("")) == m.Lines("\n")
  {
    FieldLinesAreUnbroken(m.fields);
    var head, body := [m.Header("")], FieldLines(m.fields, "");
    assert m.Header("") + "\n" == m.Header("\n");
    EndedJoins(head, body);
    if m.flags.Some? {
      var flags := "VmFlags:" + m.flags.value + "";
      assert flags + "\n" == "VmFlags:" + m.flags.value + "\n";
      EndedJoins(head + body, [flags]);
    } else {
      assert m.Lines("") == head + body;
    }
  }

  lemma {:induction false} LinesAreUnbroken(ms: seq<Mapping>)
    ensures Unbroken(Lines(ms, "")) && Ended(Lines(ms, "")) == Lines(ms, "\n")
  {
    if ms != [] {
      var before, m := ms[..|ms| - 1], ms[|ms| - 1];
      LinesAreUnbroken(before);
      MappingLinesAreUnbroken(m);
      EndedJoins(Lines(before, ""), m.Lines(""));
    }
  }

  lemma {:induction false} DumpsJoin(a: seq<Mapping>, b: seq<Mapping>)
    ensures Dump(a + b) == Dump(a) + Dump(b)
  {
    if b == [] {
      assert a + b == a;
    } else {
      var before, m := b[..|b| - 1], b[|b| - 1];
      assert (a + b)[..|a + b| - 1] == a + before;
      DumpsJoin(a, before);
      TextsJoin(Lines(a + before, ""), m.Lines(""));
      TextsJoin(Lines(before, ""), m.Lines(""));
    }
  }

  // ---------------------------------------------------------------- the scanners on whole dumps

  function CTotals(text: string, needle: Option<string>): Totals {
    CScan(Scan(false, ZERO), CLines(text), needle).totals
  }

  function GoAfter(s: Tally, text: string): Totals {
    GoScan(s, GoLines(text)).totals
  }

  function GoTotals(text: string): Totals {
    GoAfter(Tally(false, false, 0, ZERO), text)
  }

  /** C: the sum, modulo 2^64, over exactly the mappings that mention the needle. */
  lemma CScannerIsTheBlockSum(ms: seq<Mapping>, needle: Option<string>, c: Counter)
    requires OneLine(needle)
    ensures Get(CTotals(Dump(ms), needle), c) == Wrap(Sum(ms, c, needle))
  {
    hide Wrap, Sum, Lines, CScan, CLines, GoLines, Text, Ended;
    WrapOfZero();
    LinesAreUnbroken(ms);
    TextReadsBack(Lines(ms, ""));
    CScannerSums(Scan(false, ZERO), ms, "\n", needle, c);
  }

  lemma EmptyLinesAreIgnored(s: Tally)
    ensures GoStep(s, "") == s
  {
  }

  /** `t` is `s` with exactly the .jsa mappings of `ms` added, and the leak. */
  predicate SumAndLeakAdded(s: Totals, t: Totals, ms: seq<Mapping>, c: Counter)
  {
    Get(t, c) == Wrap(Get(s, c) + (Sum(ms, c, JSA) + Leaked(ms, c, JSA)))
  }

  /** Go: the same, plus the leak, added to what the snapshot holds already. */
  lemma {:induction false} GoScannerIsTheBlockSum(s: Tally, ms: seq<Mapping>, c: Counter)
    requires !s.inBlock && Wrap(Get(s.totals, c)) == Get(s.totals, c)
    ensures SumAndLeakAdded(s.totals, GoAfter(s, Dump(ms)), ms, c)
  {
    hide Get, GoStep, Wrap, Sum, Leaked, Lines, GoLines, CLines, Text, Ended;
    var lines := Lines(ms, "");
    LinesAreUnbroken(ms);
    TextReadsBack(lines);
    GoScannerSums(s, ms, "", c);
    assert (lines + [""])[..|lines|] == lines;
    EmptyLinesAreIgnored(GoScan(s, lines));
  }

  lemma {:induction false} GoTotalsAreTheBlockSum(ms: seq<Mapping>, c: Counter)
    ensures Get(GoTotals(Dump(ms)), c) == Wrap(Sum(ms, c, JSA) + Leaked(ms, c, JSA))
  {
    hide GoAfter, Wrap, Sum, Leaked, Dump;
    assert Get(ZERO, c) == 0;
    WrapOfZero();
    GoScannerIsTheBlockSum(Tally(false, false, 0, ZERO), ms, c);
  }

  /** The two scanners agree on a counter exactly when nothing leaks into it. */
  lemma {:induction false} ScannersAgreeExactly(ms: seq<Mapping>, c: Counter)
    ensures Get(GoTotals(Dump(ms)), c) == Get(CTotals(Dump(ms), JSA), c) <==> Wrap(Leaked(ms, c, JSA)) == 0
  {
    hide CTotals, GoTotals, Sum, Leaked, Dump, Wrap;
    WrapIgnoresMultiples(Sum(ms, c, JSA), Leaked(ms, c, JSA));
    CScannerIsTheBlockSum(ms, JSA, c);
    GoTotalsAreTheBlockSum(ms, c);
  }

  /** On closed dumps they agree on all six, and both give the sum. */
  lemma ScannersAgreeOnClosedDumps(ms: seq<Mapping>)
    requires Closed(ms, JSA)
    ensures GoTotals(Dump(ms)) == CTotals(Dump(ms), JSA)
  {
    hide CTotals, GoTotals, Leaked, Dump;
    forall c: Counter
      ensures Get(GoTotals(Dump(ms)), c) == Get(CTotals(Dump(ms), JSA), c)
    {
      ClosedDumpsDoNotLeak(ms, c, JSA);
      WrapOfZero();
      ScannersAgreeExactly(ms, c);
    }
    TotalsAreTheirCounters(GoTotals(Dump(ms)), CTotals(Dump(ms), JSA));
  }

  lemma WrapOfZero()
    ensures Wrap(0) == 0
  {
  }

  lemma WrapIgnoresMultiples(a: nat, b: nat)
    ensures Wrap(a + b) == Wrap(a) <==> Wrap(b) == 0
  {
  }

  lemma TotalsAreTheirCounters(t: Totals, u: Totals)
    requires forall c :: Get(t, c) == Get(u, c)
    ensures t == u
  {
    assert Get(t, Rss) == Get(u, Rss) && Get(t, Pss) == Get(u, Pss);
    assert Get(t, SharedClean) == Get(u, SharedClean) && Get(t, SharedDirty) == Get(u, SharedDirty);
    assert Get(t, PrivateClean) == Get(u, PrivateClean) && Get(t, PrivateDirty) == Get(u, PrivateDirty);
  }

  /** Scanning two dumps in one go adds up their totals, for both scanners. */
  lemma CDumpsAdd(a: seq<Mapping>, b: seq<Mapping>, needle: Option<string>, c: Counter)
    requires OneLine(needle)
    ensures Get(CTotals(Dump(a) + Dump(b), needle), c)
            == Wrap(Get(CTotals(Dump(a), needle), c) + Get(CTotals(Dump(b), needle), c))
  {
    hide CTotals, Get, Sum, Dump, Wrap;
    DumpsJoin(a, b);
    BothSumsAdd(a, b, needle, c);
    CScannerIsTheBlockSum(a, needle, c);
    CScannerIsTheBlockSum(b, needle, c);
    CScannerIsTheBlockSum(a + b, needle, c);
  }

  lemma GoDumpsAdd(a: seq<Mapping>, b: seq<Mapping>, c: Counter)
    requires Closed(a, JSA) && Closed(b, JSA)
    ensures Get(GoTotals(Dump(a) + Dump(b)), c) == Wrap(Get(GoTotals(Dump(a)), c) + Get(GoTotals(Dump(b)), c))
  {
    hide CTotals, GoTotals, Get, Sum, Dump, Wrap;
    DumpsJoin(a, b);
    BothSumsAdd(a, b, JSA, c);
    ScannersAgreeOnClosedDumps(a);
    ScannersAgreeOnClosedDumps(b);
    ScannersAgreeOnClosedDumps(a + b);
    CDumpsAdd(a, b, JSA, c);
  }

  lemma BothSumsAdd(a: seq<Mapping>, b: seq<Mapping>, needle: Option<string>, c: Counter)
    ensures Wrap(Sum(a + b, c, needle)) == Wrap(Wrap(Sum(a, c, needle)) + Wrap(Sum(b, c, needle)))
  {
    hide Wrap, Sum;
    SumsAdd(a, b, c, needle);
    WrapOnce(Sum(a, c, needle), Wrap(Sum(b, c, needle)));
    WrapOnce(Sum(b, c, needle), Sum(a, c, needle));
  }

  // ---------------------------------------------------------------- which dumps count as a JVM

  /** The header of an archive mapping. */
  predicate Opens(line: string) { HeaderLike(line) && Contains(line, ".jsa") }

  predicate Ends(line: string) { "VmFlags:" <= line }

  /** Such a header comes before line `k`, and no VmFlags line since. */
  ghost predicate InBlock(lines: seq<string>, k: nat)
    requires k <= |lines|
  {
    exists j :: 0 <= j < k && Opens(lines[j]) && forall l :: j < l < k ==> Opens(lines[l]) || !Ends(lines[l])
  }

  /** Line `k` gives the Rss of an archive mapping. */
  ghost predicate CountsRss(lines: seq<string>, k: nat) {
    && k < |lines| && InBlock(lines, k)
    && !Opens(lines[k]) && !Ends(lines[k])
    && GoField(lines[k]).Some? && GoField(lines[k]).value.0 == "Rss:"
  }

  ghost predicate ShowsRss(text: string) { exists k: nat :: CountsRss(GoLines(text), k) }

  lemma NamedRss(s: Tally, name: string, v: nat)
    ensures GoNamed(s, name, v).hadAny <==> s.hadAny || name == "Rss:"
    ensures GoNamed(s, name, v).inBlock == s.inBlock
  {
  }

  lemma BlocksGrow(lines: seq<string>, line: string)
    ensures var k := |lines|;
            InBlock(lines + [line], k + 1) <==> Opens(line) || (InBlock(lines, k) && !Ends(line))
    ensures forall k :: 0 <= k <= |lines| ==> (InBlock(lines + [line], k) <==> InBlock(lines, k))
  {
    hide Opens, Ends;
    var n, all := |lines|, lines + [line];
    assert all[n] == line && forall k :: 0 <= k < n ==> all[k] == lines[k];
    if Opens(line) {
      assert InBlock(all, n + 1);
    } else if InBlock(lines, n) && !Ends(line) {
      var j :| 0 <= j < n && Opens(lines[j]) && forall l :: j < l < n ==> Opens(lines[l]) || !Ends(lines[l]);
      assert Opens(all[j]);
    }
  }

  /** A line after these that gives the Rss of an archive mapping. */
  ghost predicate CountsNow(lines: seq<string>, line: string) {
    InBlock(lines, |lines|) && !Opens(line) && !Ends(line) && GoField(line).Some? && GoField(line).value.0 == "Rss:"
  }

  lemma CountsGrow(lines: seq<string>, line: string, k: nat)
    ensures CountsRss(lines + [line], k) <==> CountsRss(lines, k) || (k == |lines| && CountsNow(lines, line))
  {
    hide GoField, Opens, Ends, InBlock;
    BlocksGrow(lines, line);
  }

  lemma StepNotices(e: Tally, line: string)
    ensures var open := e.inBlock && !Ends(line);
            && (GoStep(e, line).inBlock <==> Opens(line) || open)
            && (GoStep(e, line).hadAny <==>
                  e.hadAny || (open && !Opens(line) && GoField(line).Some? && GoField(line).value.0 == "Rss:"))
  {
    hide GoField, GoNamed, HeaderLike, Contains;
    var f := GoField(line);
    if f.Some? { NamedRss(e, f.value.0, f.value.1); }
  }

  lemma SomeLineCounts(lines: seq<string>, line: string)
    ensures (exists k: nat :: CountsRss(lines + [line], k))
            <==> (exists k: nat :: CountsRss(lines, k)) || CountsNow(lines, line)
  {
    hide CountsRss, CountsNow;
    forall k: nat
      ensures CountsRss(lines + [line], k) <==> CountsRss(lines, k) || (k == |lines| && CountsNow(lines, line))
    {
      CountsGrow(lines, line, k);
    }
    if CountsNow(lines, line) { assert CountsRss(lines + [line], |lines|); }
  }

  /** The scanner is in a block, and has noticed an Rss, exactly when the lines say so. */
  lemma {:induction false} RssIsNoticed(s: Tally, lines: seq<string>)
    requires !s.inBlock && !s.hadAny
    ensures GoScan(s, lines).inBlock <==> InBlock(lines, |lines|)
    ensures GoScan(s, lines).hadAny <==> exists k: nat :: CountsRss(lines, k)
  {
    if lines != [] {
      var before, line := lines[..|lines| - 1], lines[|lines| - 1];
      hide InBlock, GoField, GoStep, GoScan, Opens, Ends, CountsRss;
      assert lines == before + [line];
      RssIsNoticed(s, before);
      GoScanSnoc(s, before, line);
      StepNotices(GoScan(s, before), line);
      BlocksGrow(before, line);
      SomeLineCounts(before, line);
    }
  }

  predicate HasRss(fields: seq<Field>) { exists i :: 0 <= i < |fields| && fields[i].Name() == "Rss:" }

  /** The Go scanner counts mapping `k`: an archive, or what follows one that no VmFlags line closed. */
  predicate Counted(ms: seq<Mapping>, k: nat)
    requires k < |ms|
  {
    ms[k].Names(JSA) || LeftOpen(ms[..k], JSA)
  }

  lemma FieldNoticed(s: Tally, f: Field, eol: Eol)
    ensures var e := GoStep(s, f.Line(eol));
            e.inBlock == s.inBlock && (e.hadAny <==> s.hadAny || (s.inBlock && f.Name() == "Rss:"))
  {
    hide HeaderLike, GoField, GoNamed, Decimal;
    FieldLineIsPlain(f, eol);
    GoFieldReads(f, eol);
    NamedRss(s, f.Name(), Decimal(f.digits));
  }

  lemma {:induction false} FieldsNoticed(s: Tally, fields: seq<Field>, eol: Eol)
    ensures var e := GoScan(s, FieldLines(fields, eol));
            e.inBlock == s.inBlock && (e.hadAny <==> s.hadAny || (s.inBlock && HasRss(fields)))
  {
    hide GoStep, FieldText.Line, FieldText.Ok;
    if fields != [] {
      var before, f := fields[..|fields| - 1], fields[|fields| - 1];
      FieldsNoticed(s, before, eol);
      GoScanSnoc(s, FieldLines(before, eol), f.Line(eol));
      FieldNoticed(GoScan(s, FieldLines(before, eol)), f, eol);
      assert HasRss(fields) <==> HasRss(before) || f.Name() == "Rss:" by {
        assert forall i :: 0 <= i < |before| ==> fields[i] == before[i];
      }
    }
  }

  lemma MappingNoticed(s: Tally, m: Mapping, eol: Eol)
    ensures var e, counted := GoScan(s, m.Lines(eol)), m.Names(JSA) || s.inBlock;
            && e.inBlock == (counted && m.flags.None?)
            && (e.hadAny <==> s.hadAny || (counted && HasRss(m.fields)))
  {
    hide HeaderLike, GoField, GoNamed, Contains, HasRss;
    var head, body := [m.Header(eol)], FieldLines(m.fields, eol);
    HeadersLookLikeHeaders(m, eol);
    MentionIgnoresNewline(m, eol, ".jsa");
    GoScanSplit(s, head, body);
    assert head[..0] == [];
    var s1 := GoScan(s, head);
    ForeignHeaderIsNoField(s, m, eol);
    FieldsNoticed(s1, m.fields, eol);
    if m.flags.Some? {
      var flags := ["VmFlags:" + m.flags.value + eol];
      FlagsLineIsNotAHeader(m, eol);
      GoScanSplit(s, head + body, flags);
      assert flags[..0] == [];
    } else {
      assert m.Lines(eol) == head + body;
    }
  }

  lemma {:induction false} MappingsNoticed(s: Tally, ms: seq<Mapping>, eol: Eol)
    requires !s.inBlock
    ensures var e := GoScan(s, Lines(ms, eol));
            && e.inBlock == LeftOpen(ms, JSA)
            && (e.hadAny <==> s.hadAny || exists k :: 0 <= k < |ms| && Counted(ms, k) && HasRss(ms[k].fields))
  {
    hide GoStep, Contains, MappingText.Lines, MappingText.Names, HasRss;
    if ms != [] {
      var before, m := ms[..|ms| - 1], ms[|ms| - 1];
      MappingsNoticed(s, before, eol);
      LastMappingLines(ms, eol);
      GoScanSplit(s, Lines(before, eol), m.Lines(eol));
      MappingNoticed(GoScan(s, Lines(before, eol)), m, eol);
      hide Lines, LeftOpen, Counted;
      LastMappingShows(ms);
    }
  }

  lemma LastMappingShows(ms: seq<Mapping>)
    requires ms != []
    ensures var m, before := ms[|ms| - 1], ms[..|ms| - 1];
            var counted := m.Names(JSA) || LeftOpen(before, JSA);
            && LeftOpen(ms, JSA) == (counted && m.flags.None?)
            && ((exists k :: 0 <= k < |ms| && Counted(ms, k) && HasRss(ms[k].fields))
                <==> || (exists k :: 0 <= k < |before| && Counted(before, k) && HasRss(before[k].fields))
                     || (counted && HasRss(m.fields)))
  {
    hide MappingText.Names, HasRss;
    var n := |ms| - 1;
    var before := ms[..n];
    forall k | 0 <= k < n
      ensures ms[k] == before[k] && Counted(ms, k) == Counted(before, k)
    {
      assert ms[..k] == before[..k];
    }
    assert Counted(ms, n) == (ms[n].Names(JSA) || LeftOpen(before, JSA));
  }

  /** A dump counts as a JVM if and only if one of the mappings that are counted has an Rss field; so on closed dumps,
    * an archive mapping. */
  lemma DumpsThatCount(ms: seq<Mapping>)
    ensures ShowsRss(Dump(ms)) <==> exists k :: 0 <= k < |ms| && Counted(ms, k) && HasRss(ms[k].fields)
    ensures Closed(ms, JSA) ==>
              (ShowsRss(Dump(ms)) <==> exists k :: 0 <= k < |ms| && ms[k].Names(JSA) && HasRss(ms[k].fields))
  {
    hide GoStep, MappingText.Names, HasRss, Lines, GoLines, CLines, Text, Ended, CountsRss;
    var s, lines := Tally(false, false, 0, ZERO), Lines(ms, "");
    LinesAreUnbroken(ms);
    TextReadsBack(lines);
    MappingsNoticed(s, ms, "");
    assert (lines + [""])[..|lines|] == lines;
    EmptyLinesAreIgnored(GoScan(s, lines));
    RssIsNoticed(s, lines + [""]);
    if Closed(ms, JSA) {
      forall k | 0 <= k < |ms|
        ensures Counted(ms, k) <==> ms[k].Names(JSA)
      {
        assert Closed(ms[..k], JSA);
        ClosedDumpsDoNotLeak(ms[..k], Rss, JSA);
      }
    }
  }

  /** An archive mapping without a VmFlags line, and a foreign mapping after it. */
  const OPEN_ARCHIVE: Mapping := MappingText("0-1", "a.jsa", [], None)
  const NEXT_FIELD: Field := FieldText("Rss", " ", "1", "")
  const NEXT: Mapping := MappingText("1-2", "b", [NEXT_FIELD], None)

  lemma TheOpenDump()
    ensures OPEN_ARCHIVE.Names(JSA) && !NEXT.Names(JSA)
    ensures Decimal(NEXT_FIELD.digits) == 1
  {
    hide Contains;
    assert "1"[..0] == "";
    assert OPEN_ARCHIVE.addr[1] == '-' && NEXT.addr[1] == '-';
    ContainsAtTheEnd("0-1 a", ".jsa");
    assert OPEN_ARCHIVE.Header("") == "0-1 a" + ".jsa";
    LettersAreNeeded(NEXT.Header(""), ".jsa", '.');
  }

  /** Without a VmFlags line (kernels before 3.8) the Go scanner counts the mapping after an archive too. */
  lemma AnOpenBlockLeaks()
    ensures var ms := [OPEN_ARCHIVE, NEXT];
            && Get(CTotals(Dump(ms), JSA), Rss) == 0
            && Get(GoTotals(Dump(ms)), Rss) == 1
  {
    TheOpenDump();
    hide CTotals, GoTotals, Dump, Contains, Decimal, MappingText.Ok, MappingText.Names;
    var ms := [OPEN_ARCHIVE, NEXT];
    assert ms[..1] == [OPEN_ARCHIVE] && [OPEN_ARCHIVE][..0] == [];
    assert NEXT.fields[..0] == [];
    assert Of(NEXT.fields, Rss) == 1 && Of(OPEN_ARCHIVE.fields, Rss) == 0;
    assert Sum([OPEN_ARCHIVE], Rss, JSA) == 0;
    assert ms[..|ms| - 1] == [OPEN_ARCHIVE] && ms[|ms| - 1] == NEXT;
    assert Sum(ms, Rss, JSA) == 0 + 0;
    assert LeftOpen([OPEN_ARCHIVE], JSA) && Leaked([OPEN_ARCHIVE], Rss, JSA) == 0 && Leaked(ms, Rss, JSA) == 1;
    CScannerIsTheBlockSum(ms, JSA, Rss);
    GoTotalsAreTheBlockSum(ms, Rss);
  }

  lemma {:induction false} LettersAreNeeded(s: string, needle: string, x: char)
    requires x in needle && x !in s
    ensures !Contains(s, needle)
  {
    if |s| >= |needle| {
      assert x !in s[..|needle|];
      LettersAreNeeded(s[1..], needle, x);
    }
  }

  lemma {:induction false} ContainsAtTheEnd(s: string, needle: string)
    ensures Contains(s + needle, needle)
  {
    if s == "" {
      assert s + needle == needle;
      assert needle[..|needle|] == needle;
    } else {
      assert (s + needle)[1..] == s[1..] + needle;
      ContainsAtTheEnd(s[1..], needle);
    }
  }
}
