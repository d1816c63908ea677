/** The two streaming scanners of /proc/<pid>/smaps, in C and in Go, against sums over memory mappings.
  *
  * A dump is one ASCII text. C reads it with getline, which keeps the newline of each line; Go splits it
  * at the newlines.
  */
module Smaps {
  import opened Prelude

  const U64 := 0x1_0000_0000_0000_0000

  /** Unsigned 64-bit arithmetic. */
  function Wrap(n: nat): (r: nat)
    ensures r < U64
  {
    n % U64
  }

  // ---------------------------------------------------------------- text

  predicate IsSpace(c: char) { c == ' ' || '\t' <= c <= '\r' }

  predicate IsDigit(c: char) { '0' <= c <= '9' }

  /** Index of the first `c`; the length when there is none. */
  function IndexOf(s: string, c: char): (k: nat)
    ensures k <= |s|
    ensures k < |s| ==> s[k] == c
    ensures forall j :: 0 <= j < k ==> s[j] != c
  {
    if s == [] || s[0] == c then 0 else IndexOf(s[1..], c) + 1
  }

  predicate Contains(s: string, needle: string) {
    if |s| < |needle| then false
    else if s[..|needle|] == needle then true
    else Contains(s[1..], needle)
  }

  /** A '-' before the first space: an address range. */
  predicate HeaderLike(line: string) {
    IndexOf(line, '-') < IndexOf(line, ' ') < |line|
  }

  predicate AllDigits(s: string) {
    forall k :: 0 <= k < |s| ==> IsDigit(s[k])
  }

  /** The longest prefix of digits. */
  function Digits(s: string): (k: nat)
    ensures k <= |s| && AllDigits(s[..k])
    ensures k < |s| ==> !IsDigit(s[k])
  {
    if s == [] || !IsDigit(s[0]) then 0
    else
      var k := Digits(s[1..]);
      assert s[..k + 1] == [s[0]] + s[1..][..k];
      k + 1
  }

  function Decimal(s: string): nat
    requires AllDigits(s)
  {
    if s == [] then 0 else Decimal(s[..|s| - 1]) * 10 + (s[|s| - 1] - '0') as int
  }

  function SkipSpaces(s: string): string {
    if s != [] && IsSpace(s[0]) then SkipSpaces(s[1..]) else s
  }

  function SkipBlanks(s: string): string {
    if s != [] && (s[0] == ' ' || s[0] == '\t') then SkipBlanks(s[1..]) else s
  }

  /** Successive results of getline: every line with its newline, the last one possibly without. */
  function CLines(text: string): seq<string>
    decreases |text|
  {
    var k := IndexOf(text, '\n');
    if text == [] then []
    else if k == |text| then [text]
    else [text[..k + 1]] + CLines(text[k + 1..])
  }

  /** strings.Split(text, "\n") */
  function GoLines(text: string): seq<string>
    decreases |text|
  {
    var k := IndexOf(text, '\n');
    if k == |text| then [text] else [text[..k]] + GoLines(text[k + 1..])
  }

  // ---------------------------------------------------------------- the counters

  datatype Totals = Totals(
    rss: nat, pss: nat, sharedClean: nat, sharedDirty: nat, privateClean: nat, privateDirty: nat)

  const ZERO := Totals(0, 0, 0, 0, 0, 0)

  datatype Counter = Rss | Pss | SharedClean | SharedDirty | PrivateClean | PrivateDirty

  function Label(c: Counter): string {
    match c
    case Rss => "Rss:"
    case Pss => "Pss:"
    case SharedClean => "Shared_Clean:"
    case SharedDirty => "Shared_Dirty:"
    case PrivateClean => "Private_Clean:"
    case PrivateDirty => "Private_Dirty:"
  }

  function Get(t: Totals, c: Counter): nat {
    match c
    case Rss => t.rss
    case Pss => t.pss
    case SharedClean => t.sharedClean
    case SharedDirty => t.sharedDirty
    case PrivateClean => t.privateClean
    case PrivateDirty => t.privateDirty
  }

  /** Unsigned 64-bit addition to one counter. */
  function Bump(t: Totals, c: Counter, v: nat): Totals {
    match c
    case Rss => t.(rss := Wrap(t.rss + v))
    case Pss => t.(pss := Wrap(t.pss + v))
    case SharedClean => t.(sharedClean := Wrap(t.sharedClean + v))
    case SharedDirty => t.(sharedDirty := Wrap(t.sharedDirty + v))
    case PrivateClean => t.(privateClean := Wrap(t.privateClean + v))
    case PrivateDirty => t.(privateDirty := Wrap(t.privateDirty + v))
  }

  // ---------------------------------------------------------------- the C scanner

  /** strtoull in base 10: leading space, a sign, digits; saturating; None when there is no digit. */
  function Strtoull(s: string): Option<nat> {
    var t := SkipSpaces(s);
    var signed := t != [] && (t[0] == '+' || t[0] == '-');
    var u := if signed then t[1..] else t;
    var k := Digits(u);
    if k == 0 then None
    else
      var v := Decimal(u[..k]);
      if v >= U64 then Some(U64 - 1)
      else if signed && t[0] == '-' then Some(Wrap(U64 - v))
      else Some(v)
  }

  /** parse_kib_field: what it adds to the counter, if anything. */
  function KibField(line: string, prefix: string): Option<nat> {
    if prefix <= line then Strtoull(SkipBlanks(line[|prefix|..])) else None
  }

  function AddField(t: Totals, line: string, c: Counter): Totals {
    var v := KibField(line, Label(c));
    if v.Some? then Bump(t, c, v.value) else t
  }

  function AddFields(t: Totals, line: string): Totals {
    var t1 := AddField(AddField(t, line, Rss), line, Pss);
    var t2 := AddField(AddField(t1, line, SharedClean), line, SharedDirty);
    AddField(AddField(t2, line, PrivateClean), line, PrivateDirty)
  }

  datatype Scan = Scan(inBlock: bool, totals: Totals)

  function CStep(s: Scan, line: string, needle: Option<string>): Scan {
    if HeaderLike(line) then s.(inBlock := needle.Some? && Contains(line, needle.value))
    else if !s.inBlock then s
    else if "VmFlags:" <= line then s.(inBlock := false)
    else s.(totals := AddFields(s.totals, line))
  }

  function CScan(s: Scan, lines: seq<string>, needle: Option<string>): Scan {
    if lines == [] then s else CStep(CScan(s, lines[..|lines| - 1], needle), lines[|lines| - 1], needle)
  }

  lemma CScanNext(s: Scan, lines: seq<string>, i: nat, needle: Option<string>)
    requires i < |lines|
    ensures CScan(s, lines[..i + 1], needle) == CStep(CScan(s, lines[..i], needle), lines[i], needle)
  {
    assert lines[..i + 1][..i] == lines[..i];
  }

  method ParseKibField(line: string, prefix: string, counter: nat) returns (matched: bool, counter': nat)
    ensures matched <==> KibField(line, prefix).Some?
    ensures counter' == if matched then Wrap(counter + KibField(line, prefix).value) else counter
  {
    counter' := counter;
    if !(prefix <= line) {
      return false, counter;
    }
    var p := |prefix|;
    while p < |line| && (line[p] == ' ' || line[p] == '\t')
      invariant |prefix| <= p <= |line|
      invariant SkipBlanks(line[|prefix|..]) == SkipBlanks(line[p..])
    {
      p := p + 1;
    }
    assert SkipBlanks(line[p..]) == line[p..];
    var v := Strtoull(line[p..]);
    if v.None? {
      return false, counter;
    }
    return true, Wrap(counter + v.value);
  }

  /** The six calls for one line of a counted block. */
  method ParseKibFields(line: string, t: Totals) returns (t': Totals)
    ensures t' == AddFields(t, line)
  {
    hide KibField, Label, Wrap;
    var m;
    var rss, pss, sharedClean, sharedDirty, privateClean, privateDirty;
    m, rss := ParseKibField(line, Label(Rss), t.rss);
    m, pss := ParseKibField(line, Label(Pss), t.pss);
    m, sharedClean := ParseKibField(line, Label(SharedClean), t.sharedClean);
    m, sharedDirty := ParseKibField(line, Label(SharedDirty), t.sharedDirty);
    m, privateClean := ParseKibField(line, Label(PrivateClean), t.privateClean);
    m, privateDirty := ParseKibField(line, Label(PrivateDirty), t.privateDirty);
    t' := Totals(rss, pss, sharedClean, sharedDirty, privateClean, privateDirty);
  }

  method SmapsConsume(text: string, needle: Option<string>) returns (t: Totals)
    ensures t == CScan(Scan(false, ZERO), CLines(text), needle).totals
  {
    var lines := CLines(text);
    t := ZERO;
    var inBlock := false;
    var i := 0;
    while i < |lines|
      invariant 0 <= i <= |lines|
      invariant Scan(inBlock, t) == CScan(Scan(false, ZERO), lines[..i], needle)
    {
      hide AddFields, HeaderLike, Contains;
      var line := lines[i];
      CScanNext(Scan(false, ZERO), lines, i, needle);
      i := i + 1;
      if HeaderLike(line) {
        inBlock := needle.Some? && Contains(line, needle.value);
        continue;
      }
      if !inBlock {
        continue;
      }
      if "VmFlags:" <= line {
        inBlock := false;
        continue;
      }
      t := ParseKibFields(line, t);
    }
    assert lines[..|lines|] == lines;
  }

  // ---------------------------------------------------------------- the Go scanner

  /** Length of the leading run of non-space characters. */
  function Word(s: string): (k: nat)
    ensures k <= |s|
  {
    if s == [] || IsSpace(s[0]) then 0 else Word(s[1..]) + 1
  }

  lemma SkipSpacesShrinks(s: string)
    ensures |SkipSpaces(s)| <= |s|
    ensures SkipSpaces(s) != [] ==> Word(SkipSpaces(s)) > 0
  {
  }

  /** strings.Fields */
  function Words(s: string): seq<string>
    decreases |s|
  {
    SkipSpacesShrinks(s);
    var t := SkipSpaces(s);
    if t == [] then [] else [t[..Word(t)]] + Words(t[Word(t)..])
  }

  /** strconv.ParseUint in base 10, 64 bits. */
  function ParseUint(s: string): Option<nat> {
    if s == [] || !AllDigits(s) || Decimal(s) >= U64 then None else Some(Decimal(s))
  }

  /** The counter a line names and the value it has there. */
  function GoField(line: string): Option<(string, nat)> {
    var w := Words(line);
    if |w| < 2 || ParseUint(w[1]).None? then None else Some((w[0], ParseUint(w[1]).value))
  }

  /** The snapshot as far as the parser touches it; `hadAny` is per dump. */
  datatype Tally = Tally(inBlock: bool, hadAny: bool, size: nat, totals: Totals)

  function GoNamed(s: Tally, name: string, v: nat): Tally {
    if name == "Size:" then s.(size := Wrap(s.size + v))
    else if name == Label(Rss) then s.(hadAny := true, totals := Bump(s.totals, Rss, v))
    else if name == Label(Pss) then s.(totals := Bump(s.totals, Pss, v))
    else if name == Label(SharedClean) then s.(totals := Bump(s.totals, SharedClean, v))
    else if name == Label(SharedDirty) then s.(totals := Bump(s.totals, SharedDirty, v))
    else if name == Label(PrivateClean) then s.(totals := Bump(s.totals, PrivateClean, v))
    else if name == Label(PrivateDirty) then s.(totals := Bump(s.totals, PrivateDirty, v))
    else s
  }

  lemma NamedIgnoresFlags(s: Tally, name: string, v: nat)
    ensures var a, b := GoNamed(s, name, v), GoNamed(s.(inBlock := true, hadAny := false), name, v);
            a == b.(inBlock := s.inBlock, hadAny := s.hadAny || b.hadAny)
  {
  }

  function GoCount(s: Tally, line: string): Tally {
    var f := GoField(line);
    if f.None? then s else GoNamed(s, f.value.0, f.value.1)
  }

  function GoStep(s: Tally, line: string): Tally {
    if HeaderLike(line) && Contains(line, ".jsa") then s.(inBlock := true)
    else if !s.inBlock then s
    else if "VmFlags:" <= line then s.(inBlock := false)
    else GoCount(s, line)
  }

  function GoScan(s: Tally, lines: seq<string>): Tally {
    if lines == [] then s else GoStep(GoScan(s, lines[..|lines| - 1]), lines[|lines| - 1])
  }

  lemma GoScanNext(s: Tally, lines: seq<string>, i: nat)
    requires i < |lines|
    ensures GoScan(s, lines[..i + 1]) == GoStep(GoScan(s, lines[..i]), lines[i])
  {
    assert lines[..i + 1][..i] == lines[..i];
  }

  class Snapshot {
    var totals: Totals
    var size: nat
    var jvms: nat

    constructor ()
      ensures totals == ZERO && size == 0 && jvms == 0
    {
      totals, size, jvms := ZERO, 0, 0;
    }

    /** The switch on the field name. */
    method Count(name: string, val: nat) returns (isRss: bool)
      modifies this
      ensures var s := GoNamed(Tally(true, false, old(size), old(totals)), name, val);
              totals == s.totals && size == s.size && isRss == s.hadAny
      ensures jvms == old(jvms)
    {
      isRss := false;
      if name == "Size:" {
        size := Wrap(size + val);
      } else if name == "Rss:" {
        totals := totals.(rss := Wrap(totals.rss + val));
        isRss := true;
      } else if name == "Pss:" {
        totals := totals.(pss := Wrap(totals.pss + val));
      } else if name == "Shared_Clean:" {
        totals := totals.(sharedClean := Wrap(totals.sharedClean + val));
      } else if name == "Shared_Dirty:" {
        totals := totals.(sharedDirty := Wrap(totals.sharedDirty + val));
      } else if name == "Private_Clean:" {
        totals := totals.(privateClean := Wrap(totals.privateClean + val));
      } else if name == "Private_Dirty:" {
        totals := totals.(privateDirty := Wrap(totals.privateDirty + val));
      }
    }

    method AccumulateSmaps(out: string)
      modifies this
      ensures var s := GoScan(Tally(false, false, old(size), old(totals)), GoLines(out));
              totals == s.totals && size == s.size && jvms == old(jvms) + (if s.hadAny then 1 else 0)
    {
      var lines := GoLines(out);
      var inBlock, hadAny := false, false;
      ghost var start := Tally(false, false, size, totals);
      for i := 0 to |lines|
        invariant Tally(inBlock, hadAny, size, totals) == GoScan(start, lines[..i])
        invariant jvms == old(jvms)
      {
        hide GoScan, GoNamed, Contains, Words, ParseUint;
        var line := lines[i];
        GoScanNext(start, lines, i);
        // strings.IndexByte is -1 for a missing byte
        var dash, space := IndexOf(line, '-'), IndexOf(line, ' ');
        if dash < |line| && Contains(line, ".jsa") && dash < (if space < |line| then space else -1) {
          inBlock := true;
          continue;
        }
        if !inBlock {
          continue;
        }
        if "VmFlags:" <= line {
          inBlock := false;
          continue;
        }
        var fields := Words(line);
        if |fields| < 2 {
          continue;
        }
        var val := ParseUint(fields[1]);
        if val.None? {
          continue;
        }
        NamedIgnoresFlags(Tally(inBlock, hadAny, size, totals), fields[0], val.value);
        var isRss := Count(fields[0], val.value);
        if isRss {
          hadAny := true;
        }
      }
      assert lines[..|lines|] == lines;
      if hadAny {
        jvms := jvms + 1;
      }
    }
  }
}
