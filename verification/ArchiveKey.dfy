/** The content-addressed archive key: what is hashed, and when it determines its ingredients.
  *
  * A string stands for its bytes, one character each; `H` is SHA-256, left uninterpreted.
  */
module ArchiveKey {
  import opened Prelude

  // ---------------------------------------------------------------- hexadecimal digests

  function HexDigit(d: int): char
    requires 0 <= d < 16
  {
    "0123456789abcdef"[d]
  }

  function Hex(bytes: Bytes): string {
    if bytes == [] then "" else [HexDigit(bytes[0] / 16), HexDigit(bytes[0] % 16)] + Hex(bytes[1..])
  }

  lemma {:induction false} HexHasNoPipe(bytes: Bytes)
    ensures |Hex(bytes)| == 2 * |bytes| && '|' !in Hex(bytes)
  {
    if bytes != [] {
      HexHasNoPipe(bytes[1..]);
    }
  }

  /** The number a lower-case hexadecimal digit stands for. */
  function Nibble(c: char): int {
    if '0' <= c <= '9' then c as int - '0' as int
    else if 'a' <= c <= 'f' then c as int - 'a' as int + 10
    else -1
  }

  /** Every byte is written as its high and its low half. */
  lemma {:induction false} HexReadsBack(bytes: Bytes, k: nat)
    requires k < |bytes|
    ensures |Hex(bytes)| == 2 * |bytes|
    ensures 0 <= Nibble(Hex(bytes)[2 * k]) && 0 <= Nibble(Hex(bytes)[2 * k + 1])
    ensures bytes[k] == 16 * Nibble(Hex(bytes)[2 * k]) + Nibble(Hex(bytes)[2 * k + 1])
  {
    HexHasNoPipe(bytes);
    if k == 0 {
      DigitsReadBack(bytes[0] / 16);
      DigitsReadBack(bytes[0] % 16);
    } else {
      HexReadsBack(bytes[1..], k - 1);
    }
  }

  lemma DigitsReadBack(d: int)
    requires 0 <= d < 16
    ensures Nibble(HexDigit(d)) == d
  {
  }

  lemma {:induction false} HexIsInjective(a: Bytes, b: Bytes)
    requires Hex(a) == Hex(b)
    ensures a == b
  {
    HexHasNoPipe(a);
    HexHasNoPipe(b);
    forall k | 0 <= k < |a|
      ensures a[k] == b[k]
    {
      HexReadsBack(a, k);
      HexReadsBack(b, k);
    }
  }

  // ---------------------------------------------------------------- the preimage

  datatype Parts = Parts(app: string, agent: string, jvm: string, arch: string, profile: string)

  /** strings.Join */
  function Join(parts: seq<string>, sep: string): string {
    if parts == [] then "" else if |parts| == 1 then parts[0] else parts[0] + sep + Join(parts[1..], sep)
  }

  function Preimage(p: Parts): string { Join([p.app, p.agent, p.jvm, p.arch, p.profile], "|") }

  lemma JoinCons(first: string, rest: seq<string>)
    requires rest != []
    ensures Join([first] + rest, "|") == first + "|" + Join(rest, "|") == first + ("|" + Join(rest, "|"))
  {
    assert ([first] + rest)[1..] == rest;
  }

  lemma PreimageUnfolds(p: Parts)
    ensures Preimage(p) == p.app + "|" + (p.agent + "|" + (p.jvm + "|" + (p.arch + "|" + p.profile)))
  {
    JoinCons(p.app, [p.agent, p.jvm, p.arch, p.profile]);
    JoinCons(p.agent, [p.jvm, p.arch, p.profile]);
    JoinCons(p.jvm, [p.arch, p.profile]);
    JoinCons(p.arch, [p.profile]);
    assert Join([p.profile], "|") == p.profile;
    assert [p.app] + [p.agent, p.jvm, p.arch, p.profile] == [p.app, p.agent, p.jvm, p.arch, p.profile];
    assert [p.agent] + [p.jvm, p.arch, p.profile] == [p.agent, p.jvm, p.arch, p.profile];
    assert [p.jvm] + [p.arch, p.profile] == [p.jvm, p.arch, p.profile];
    assert [p.arch] + [p.profile] == [p.arch, p.profile];
  }

  /** Text before and after the first '|'. */
  function Cut(s: string): Option<(string, string)> {
    if s == "" then None
    else if s[0] == '|' then Some(("", s[1..]))
    else
      var r := Cut(s[1..]);
      if r.None? then None else Some(([s[0]] + r.value.0, r.value.1))
  }

  lemma {:induction false} CutJoined(a: string, rest: string)
    requires '|' !in a
    ensures Cut(a + "|" + rest) == Some((a, rest))
  {
    var s := a + "|" + rest;
    if a == "" {
      assert s[1..] == rest;
    } else {
      assert a[0] in a;
      assert s[1..] == a[1..] + "|" + rest;
      CutJoined(a[1..], rest);
      assert [a[0]] + a[1..] == a;
    }
  }

  /** Undo the join: four fields up to a '|' each, the rest is the profile. */
  function Decode(s: string): Option<Parts> {
    var a := Cut(s);
    if a.None? then None
    else
      var b := Cut(a.value.1);
      if b.None? then None
      else
        var c := Cut(b.value.1);
        if c.None? then None
        else
          var d := Cut(c.value.1);
          if d.None? then None else Some(Parts(a.value.0, b.value.0, c.value.0, d.value.0, d.value.1))
  }

  predicate Plain(p: Parts) { '|' !in p.app && '|' !in p.agent && '|' !in p.jvm && '|' !in p.arch }

  lemma PreimageDecodes(p: Parts)
    requires Plain(p)
    ensures Decode(Preimage(p)) == Some(p)
  {
    hide Cut;
    PreimageUnfolds(p);
    CutJoined(p.app, p.agent + "|" + (p.jvm + "|" + (p.arch + "|" + p.profile)));
    CutJoined(p.agent, p.jvm + "|" + (p.arch + "|" + p.profile));
    CutJoined(p.jvm, p.arch + "|" + p.profile);
    CutJoined(p.arch, p.profile);
  }

  /** Whatever the profile is called, plain ingredients are determined by the preimage. */
  lemma PreimageIsInjective(p: Parts, q: Parts)
    requires Plain(p) && Plain(q) && Preimage(p) == Preimage(q)
    ensures p == q
  {
    PreimageDecodes(p);
    PreimageDecodes(q);
  }

  // ---------------------------------------------------------------- against arbitrary JVM lines

  function Pipes(s: string): nat {
    if s == "" then 0 else (if s[0] == '|' then 1 else 0) + Pipes(s[1..])
  }

  lemma {:induction false} PipesAdd(a: string, b: string)
    ensures Pipes(a + b) == Pipes(a) + Pipes(b)
  {
    if a == "" {
      assert a + b == b;
    } else {
      assert (a + b)[1..] == a[1..] + b;
      PipesAdd(a[1..], b);
    }
  }

  lemma {:induction false} NoPipes(s: string)
    ensures Pipes(s) == 0 <==> '|' !in s
  {
    if s != "" {
      NoPipes(s[1..]);
      assert '|' in s <==> s[0] == '|' || '|' in s[1..];
    }
  }

  lemma PipesOfPreimage(p: Parts)
    ensures Pipes(Preimage(p)) == Pipes(p.app) + Pipes(p.agent) + Pipes(p.jvm) + Pipes(p.arch) + Pipes(p.profile) + 4
  {
    PreimageUnfolds(p);
    var s3 := p.arch + "|" + p.profile;
    var s2 := p.jvm + "|" + s3;
    var s1 := p.agent + "|" + s2;
    assert Pipes("|") == 1 by {
      assert "|"[1..] == "";
    }
    PipesAdd(p.arch + "|", p.profile);
    PipesAdd(p.arch, "|");
    PipesAdd(p.jvm + "|", s3);
    PipesAdd(p.jvm, "|");
    PipesAdd(p.agent + "|", s2);
    PipesAdd(p.agent, "|");
    PipesAdd(p.app + "|", s1);
    PipesAdd(p.app, "|");
  }

  predicate Hashed(p: Parts) { '|' !in p.app && '|' !in p.agent }

  lemma {:induction false} SplitAtPipe(s: string) returns (x: string, y: string)
    requires '|' in s
    ensures s == x + "|" + y
  {
    if s[0] == '|' {
      x, y := "", s[1..];
    } else {
      var x';
      x', y := SplitAtPipe(s[1..]);
      x := [s[0]] + x';
    }
  }

  /** Other ingredients with the same preimage, when a '|' makes the join ambiguous. */
  lemma Confusable(p: Parts) returns (q: Parts)
    requires Hashed(p) && ('|' in p.jvm || '|' in p.arch || '|' in p.profile)
    ensures Hashed(q) && q != p && Preimage(q) == Preimage(p)
  {
    hide Join;
    if '|' in p.profile {
      var x, y := SplitAtPipe(p.profile);
      q := p.(jvm := p.jvm + "|" + p.arch, arch := x, profile := y);
      assert |q.profile| < |p.profile|;
    } else if '|' in p.jvm {
      var x, y := SplitAtPipe(p.jvm);
      q := p.(jvm := x, arch := y, profile := p.arch + "|" + p.profile);
      assert |q.profile| > |p.profile|;
    } else {
      var x, y := SplitAtPipe(p.arch);
      q := p.(arch := x, profile := y + "|" + p.profile);
      assert |q.profile| > |p.profile|;
    }
    PreimageUnfolds(p);
    PreimageUnfolds(q);
    assert p.jvm + "|" + (p.arch + "|" + p.profile) == q.jvm + "|" + (q.arch + "|" + q.profile);
  }

  /** Exactly when ingredients have a preimage that nothing else shares: no '|' outside the separators. */
  lemma PreimageIsUniqueExactlyWithoutPipes(p: Parts)
    requires Hashed(p)
    ensures (forall q :: Hashed(q) && Preimage(q) == Preimage(p) ==> q == p)
            <==> '|' !in p.jvm && '|' !in p.arch && '|' !in p.profile
  {
    if '|' !in p.jvm && '|' !in p.arch && '|' !in p.profile {
      forall q | Hashed(q) && Preimage(q) == Preimage(p)
        ensures q == p
      {
        hide Pipes, Preimage;
        PipesOfPreimage(p);
        PipesOfPreimage(q);
        NoPipes(p.app);
        NoPipes(p.agent);
        NoPipes(p.jvm);
        NoPipes(p.arch);
        NoPipes(p.profile);
        NoPipes(q.app);
        NoPipes(q.agent);
        NoPipes(q.jvm);
        NoPipes(q.arch);
        PreimageIsInjective(p, q);
      }
    } else {
      var q := Confusable(p);
    }
  }

  // ---------------------------------------------------------------- the key

  predicate Blank(c: char) { c == ' ' || '\t' <= c <= '\r' }

  function TrimLeft(s: string): string { if s != "" && Blank(s[0]) then TrimLeft(s[1..]) else s }

  function TrimRight(s: string): string {
    if s != "" && Blank(s[|s| - 1]) then TrimRight(s[..|s| - 1]) else s
  }

  function UpToNewline(s: string): string {
    if s == "" || s[0] == '\n' then "" else [s[0]] + UpToNewline(s[1..])
  }

  /** First line of the trimmed output of `java -version`. */
  function JvmLine(output: string): string { UpToNewline(TrimRight(TrimLeft(output))) }

  predicate AllBlank(s: string) { forall c <- s :: Blank(c) }

  /** `line` starts at the first character that is not blank and ends before the next newline, or, when nothing but
    * blanks follows, with the last character that is not blank. */
  ghost predicate IsFirstLine(output: string, line: string) {
    && line != "" && !Blank(line[0]) && '\n' !in line
    && exists before, after ::
         && output == before + line + after && AllBlank(before)
         && if AllBlank(after) then !Blank(line[|line| - 1]) else after[0] == '\n'
  }

  lemma {:induction false} TrimmedLeft(s: string) returns (before: string)
    ensures s == before + TrimLeft(s) && AllBlank(before)
    ensures TrimLeft(s) != "" ==> !Blank(TrimLeft(s)[0])
  {
    before := "";
    if s != "" && Blank(s[0]) {
      var b := TrimmedLeft(s[1..]);
      before := [s[0]] + b;
    }
  }

  lemma {:induction false} TrimmedRight(s: string) returns (after: string)
    ensures s == TrimRight(s) + after && AllBlank(after)
    ensures TrimRight(s) != "" ==> !Blank(TrimRight(s)[|TrimRight(s)| - 1])
  {
    after := "";
    if s != "" && Blank(s[|s| - 1]) {
      var a := TrimmedRight(s[..|s| - 1]);
      after := a + [s[|s| - 1]];
    }
  }

  lemma {:induction false} CutAtNewline(s: string) returns (rest: string)
    ensures s == UpToNewline(s) + rest && '\n' !in UpToNewline(s)
    ensures rest != "" ==> rest[0] == '\n'
  {
    rest := s;
    if s != "" && s[0] != '\n' {
      rest := CutAtNewline(s[1..]);
    }
  }

  lemma AllBlankJoins(a: string, b: string)
    ensures AllBlank(a + b) <==> AllBlank(a) && AllBlank(b)
  {
    if AllBlank(a + b) {
      assert forall c <- a :: c in a + b;
      assert forall c <- b :: c in a + b;
    }
  }

  lemma NotAllBlank(s: string)
    requires s != "" && !Blank(s[0])
    ensures !AllBlank(s)
  {
    assert s[0] in s;
  }

  lemma EndsOfTheLine(trimmed: string, line: string, rest: string)
    requires trimmed == line + rest && (rest != "" ==> rest[0] == '\n')
    requires trimmed != "" && !Blank(trimmed[0]) && !Blank(trimmed[|trimmed| - 1])
    ensures line != "" && !Blank(line[0])
    ensures if rest == "" then !Blank(line[|line| - 1]) else !AllBlank(rest)
  {
    if rest != "" { assert rest[|rest| - 1] == trimmed[|trimmed| - 1]; }
  }

  /** The JVM line is the first line of the output, unless the output is blank. */
  lemma JvmLineIsTheFirstLine(output: string)
    ensures if AllBlank(output) then JvmLine(output) == "" else IsFirstLine(output, JvmLine(output))
  {
    var left, line := TrimLeft(output), JvmLine(output);
    var trimmed := TrimRight(left);
    var before := TrimmedLeft(output);
    var blanks := TrimmedRight(left);
    var rest := CutAtNewline(trimmed);
    hide TrimLeft, TrimRight, UpToNewline, Blank, AllBlank;
    AllBlankJoins(before, left);
    AllBlankJoins(trimmed, blanks);
    AllBlankJoins(rest, blanks);
    if trimmed == "" {
      assert line == "" && left == blanks;
    } else {
      assert trimmed[0] == left[0];
      EndsOfTheLine(trimmed, line, rest);
      NotAllBlank(left);
      assert output == before + line + (rest + blanks);
      assert rest == "" ==> rest + blanks == blanks;
    }
  }

  const KEY_LENGTH := 16

  /** ComputeKey from the contents of the two jars (None when one cannot be read). */
  method ComputeKey(H: string -> Bytes, app: Option<string>, agent: Option<string>, javaOutput: string,
                    arch: string, profile: string)
    returns (r: Result<string>)
    requires forall b :: |H(b)| == 32
    ensures r.Err? <==> app.None? || agent.None? || AllBlank(javaOutput)
    ensures r.Ok? ==>
              var p := Ingredients(H, app.value, agent.value, JvmLine(javaOutput), arch, profile);
              && IsFirstLine(javaOutput, p.jvm)
              && |r.value| == KEY_LENGTH && r.value <= Hex(H(Preimage(p)))
  {
    JvmLineIsTheFirstLine(javaOutput);
    if app.None? || agent.None? {
      return Err;
    }
    var appHash, agentHash := Hex(H(app.value)), Hex(H(agent.value));
    var jvm := JvmLine(javaOutput);
    if jvm == "" {
      return Err;
    }
    var full := H(Join([appHash, agentHash, jvm, arch, profile], "|"));
    HexHasNoPipe(full);
    return Ok(Hex(full)[..KEY_LENGTH]);
  }

  function Ingredients(
    H: string -> Bytes, app: string, agent: string, jvm: string, arch: string, profile: string): Parts
  {
    Parts(Hex(H(app)), Hex(H(agent)), jvm, arch, profile)
  }

  predicate Collide(H: string -> Bytes, a: string, b: string) { a != b && H(a) == H(b) }

  /** Behind equal digests are the same jars, JVM line, architecture and profile, whatever the profiles are called,
    * or a collision of the hash; all this as long as no JVM line or architecture has a '|'. */
  lemma DigestsDetermineIngredients(
    H: string -> Bytes, app: string, agent: string, jvm: string, arch: string, profile: string,
    app': string, agent': string, jvm': string, arch': string, profile': string)
    requires '|' !in jvm && '|' !in arch && '|' !in jvm' && '|' !in arch'
    requires var p := Ingredients(H, app, agent, jvm, arch, profile);
             var q := Ingredients(H, app', agent', jvm', arch', profile');
             Hex(H(Preimage(p))) == Hex(H(Preimage(q)))
    ensures var p := Ingredients(H, app, agent, jvm, arch, profile);
            var q := Ingredients(H, app', agent', jvm', arch', profile');
            || (app == app' && agent == agent' && jvm == jvm' && arch == arch' && profile == profile')
            || Collide(H, app, app') || Collide(H, agent, agent') || Collide(H, Preimage(p), Preimage(q))
  {
    var p := Ingredients(H, app, agent, jvm, arch, profile);
    var q := Ingredients(H, app', agent', jvm', arch', profile');
    HexIsInjective(H(Preimage(p)), H(Preimage(q)));
    if Preimage(p) == Preimage(q) {
      HexHasNoPipe(H(app));
      HexHasNoPipe(H(app'));
      HexHasNoPipe(H(agent));
      HexHasNoPipe(H(agent'));
      PreimageIsInjective(p, q);
      HexIsInjective(H(app), H(app'));
      HexIsInjective(H(agent), H(agent'));
    }
  }
}
