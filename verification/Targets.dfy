/** lib/targets.go: the HTTP target format, read line by line through a scanner with one line of
    lookahead. The input is its sequence of lines. */
module Targets {

  type Bytes = seq<bv8>

  type Header = map<string, seq<string>>

  datatype Target = Target(verb: string, url: string, body: Bytes, header: Header)

  datatype Error =
    | NoTargets | BadTarget(line: string) | BadMethod(word: string) | BadURL(url: string)
    | BadBody(path: string) | BadHeader(line: string)

  datatype Outcome<+T> = Ok(value: T) | Err(error: Error)

  /** What a targeter is made with, what os.ReadFile finds, and which URLs net/url accepts. */
  datatype Env = Env(body: Bytes, header: Header, files: map<string, Bytes>, validURL: string -> bool)

  // ------------------------------------------------------------------ strings

  /** unicode.IsSpace. */
  predicate IsSpace(c: char) {
    || '\U{0009}' <= c <= '\U{000d}' || c == ' ' || c == '\U{0085}' || c == '\U{00a0}' || c == '\U{1680}'
    || '\U{2000}' <= c <= '\U{200a}' || c == '\U{2028}' || c == '\U{2029}' || c == '\U{202f}'
    || c == '\U{205f}' || c == '\U{3000}'
  }

  lemma {:induction false} SpacesOfLatin1(c: char)
    requires c < '\U{0100}'
    ensures IsSpace(c) <==> c in " \t\n\r\U{000b}\U{000c}\U{0085}\U{00a0}"
  {
    var spaces := " \t\n\r\U{000b}\U{000c}\U{0085}\U{00a0}";
    assert spaces[0] == ' ' && spaces[1] == '\t' && spaces[2] == '\n' && spaces[3] == '\r';
    assert spaces[4] == '\U{000b}' && spaces[5] == '\U{000c}';
    assert spaces[6] == '\U{0085}' && spaces[7] == '\U{00a0}';
  }

  function TrimLeft(s: string): string {
    if s != "" && IsSpace(s[0]) then TrimLeft(s[1..]) else s
  }

  function TrimRight(s: string): string {
    if s != "" && IsSpace(s[|s| - 1]) then TrimRight(s[..|s| - 1]) else s
  }

  function Trim(s: string): string { TrimRight(TrimLeft(s)) }

  /** Nothing to trim. */
  predicate Trimmed(s: string) { s != "" ==> !IsSpace(s[0]) && !IsSpace(s[|s| - 1]) }

  /** The position of the first c in s, or the length of s. */
  function Find(s: string, c: char): (i: nat)
    ensures i <= |s| && (i < |s| ==> s[i] == c) && c !in s[..i]
  {
    if s == "" || s[0] == c then 0
    else
      var i := 1 + Find(s[1..], c);
      assert s[..i] == [s[0]] + s[1..][..i - 1];
      i
  }

  predicate IsUpper(c: char) { 'A' <= c <= 'Z' }

  function Uppers(s: string): (n: nat)
    ensures n <= |s| && (forall i :: 0 <= i < n ==> IsUpper(s[i])) && (n < |s| ==> !IsUpper(s[n]))
  {
    if s == "" || !IsUpper(s[0]) then 0 else 1 + Uppers(s[1..])
  }

  /** The regular expression ^[A-Z]+\s, whose \s is ASCII without the vertical tab. */
  predicate StartsWithMethod(s: string) {
    var n := Uppers(s);
    0 < n < |s| && (s[n] == ' ' || s[n] == '\t' || s[n] == '\n' || s[n] == '\U{000c}' || s[n] == '\r')
  }

  /** A word of capital letters and one of the five white-space characters. */
  ghost predicate RequestLike(s: string) {
    exists n :: 0 < n < |s| && s[n] in " \t\n\r\U{000c}" && forall i :: 0 <= i < n ==> 'A' <= s[i] <= 'Z'
  }

  lemma {:induction false} StartsWithMethodIs(s: string)
    ensures StartsWithMethod(s) <==> RequestLike(s)
  {
    var n := Uppers(s);
    if StartsWithMethod(s) {
      assert s[n] in " \t\n\r\U{000c}";
    }
    if RequestLike(s) {
      var k :| 0 < k < |s| && s[k] in " \t\n\r\U{000c}" && forall i :: 0 <= i < k ==> 'A' <= s[i] <= 'Z';
      assert !IsUpper(s[k]);
      assert n == k;
    }
  }

  ghost predicate Blank(s: string) { forall i :: 0 <= i < |s| ==> IsSpace(s[i]) }

  lemma {:induction false} TrimLeftIs(s: string) returns (i: nat)
    ensures i <= |s| && TrimLeft(s) == s[i..] && Blank(s[..i])
    ensures TrimLeft(s) != "" ==> !IsSpace(TrimLeft(s)[0])
  {
    if s == "" || !IsSpace(s[0]) {
      i := 0;
    } else {
      var k := TrimLeftIs(s[1..]);
      i := k + 1;
      assert s[i..] == s[1..][k..] && s[..i] == [s[0]] + s[1..][..k];
    }
  }

  lemma {:induction false} TrimRightIs(s: string) returns (j: nat)
    ensures j <= |s| && TrimRight(s) == s[..j] && Blank(s[j..])
    ensures TrimRight(s) != "" ==> !IsSpace(TrimRight(s)[j - 1])
  {
    if s == "" || !IsSpace(s[|s| - 1]) {
      j := |s|;
    } else {
      j := TrimRightIs(s[..|s| - 1]);
      assert s[j..] == s[..|s| - 1][j..] + [s[|s| - 1]];
    }
  }

  /** Trimming removes exactly the white space at both ends. */
  lemma {:induction false} TrimIs(s: string) returns (i: nat, j: nat)
    ensures i <= j <= |s| && Trim(s) == s[i..j] && Trimmed(Trim(s))
    ensures Blank(s[..i]) && Blank(s[j..])
    ensures Trim(s) == "" <==> Blank(s)
  {
    i := TrimLeftIs(s);
    var k := TrimRightIs(s[i..]);
    j := i + k;
    assert s[i..][..k] == s[i..j] && s[i..][k..] == s[j..];
    forall n | 0 <= n < |s| && (n < i || n >= j) ensures IsSpace(s[n]) {
      if n < i { assert s[..i][n] == s[n]; } else { assert s[j..][n - j] == s[n]; }
    }
    if i < j { assert !IsSpace(s[j - 1]); }
  }

  lemma {:induction false} TrimTrimmed(s: string)
    requires Trimmed(s)
    ensures Trim(s) == s
  {
  }

  lemma {:induction false} FindIs(a: string, c: char, b: string)
    requires c !in a
    ensures Find(a + [c] + b, c) == |a|
  {
    if a != "" {
      assert (a + [c] + b)[0] == a[0] && (a + [c] + b)[1..] == a[1..] + [c] + b;
      FindIs(a[1..], c, b);
    }
  }

  lemma {:induction false} UppersIs(a: string, b: string)
    requires (forall i :: 0 <= i < |a| ==> IsUpper(a[i])) && (b != "" ==> !IsUpper(b[0]))
    ensures Uppers(a + b) == |a|
  {
    if a == "" {
      assert a + b == b;
    } else {
      assert (a + b)[0] == a[0] && (a + b)[1..] == a[1..] + b;
      UppersIs(a[1..], b);
    }
  }

  // ------------------------------------------------------------------ one target, on values

  /** A blank or comment line. */
  predicate Filler(text: string) { text == "" || text[0] == '#' }

  function SkipFiller(lines: seq<string>): (rest: seq<string>)
    ensures |rest| <= |lines|
  {
    if lines != [] && Filler(Trim(lines[0])) then SkipFiller(lines[1..]) else lines
  }

  function RequestLine(env: Env, line: string): Outcome<Target> {
    var i := Find(line, ' ');
    if i == |line| then Err(BadTarget(line))
    else if !StartsWithMethod(line) then Err(BadMethod(line[..i]))
    else if !env.validURL(line[i + 1..]) then Err(BadURL(line[i + 1..]))
    else Ok(Target(line[..i], line[i + 1..], env.body, env.header))
  }

  function WithHeader(h: Header, key: string, value: string): Header {
    h[key := (if key in h then h[key] else []) + [value]]
  }

  /** A target or an error, and the lines not consumed. */
  datatype Parsed = Parsed(outcome: Outcome<Target>, rest: seq<string>)

  function HeaderLines(env: Env, t: Target, lines: seq<string>): (p: Parsed)
    ensures |p.rest| <= |lines|
    ensures p.outcome != Err(NoTargets)
    decreases |lines|
  {
    if lines == [] then Parsed(Ok(t), [])
    else
      var line, rest := Trim(lines[0]), lines[1..];
      if line == "" then Parsed(Ok(t), rest)
      else if line[0] == '#' then HeaderLines(env, t, rest)
      else if line[0] == '@' then
        if line[1..] in env.files then Parsed(Ok(t.(body := env.files[line[1..]])), rest)
        else Parsed(Err(BadBody(line[1..])), rest)
      else
        var i := Find(line, ':');
        if i == |line| then Parsed(Err(BadHeader(line)), rest)
        else
          var key, value := Trim(line[..i]), Trim(line[i + 1..]);
          if key == "" || value == "" then Parsed(Err(BadHeader(line)), rest)
          else HeaderLines(env, t.(header := WithHeader(t.header, key, value)), rest)
  }

  /** What one call of the targeter makes of the remaining lines. Whatever the input, a call that
      does not report the end of the targets consumes a line. */
  function ParseTarget(env: Env, lines: seq<string>): (p: Parsed)
    ensures p.outcome == Err(NoTargets) <==> SkipFiller(lines) == []
    ensures p.outcome != Err(NoTargets) ==> |p.rest| < |lines|
  {
    var ls := SkipFiller(lines);
    if ls == [] then Parsed(Err(NoTargets), [])
    else
      var request, rest := RequestLine(env, Trim(ls[0])), ls[1..];
      if request.Err? then Parsed(request, rest)
      else if rest == [] then Parsed(request, rest)
      else
        var peeked := Trim(rest[0]);
        if peeked == "" || StartsWithMethod(peeked) then
          Parsed(request, if rest[0] == "" then rest[1..] else rest)
        else HeaderLines(env, request.value, rest)
  }

  /** ReadAllTargets on values. */
  function ReadMany(env: Env, lines: seq<string>): Outcome<seq<Target>>
    decreases |lines|
  {
    var p := ParseTarget(env, lines);
    if p.outcome == Err(NoTargets) then Ok([])
    else if p.outcome.Err? then Err(p.outcome.error)
    else Prepend([p.outcome.value], ReadMany(env, p.rest))
  }

  function Prepend(ts: seq<Target>, more: Outcome<seq<Target>>): Outcome<seq<Target>> {
    if more.Err? then more else Ok(ts + more.value)
  }

  lemma {:induction false} PrependTwice(a: seq<Target>, b: seq<Target>, more: Outcome<seq<Target>>)
    ensures Prepend(a, Prepend(b, more)) == Prepend(a + b, more)
    ensures Prepend([], more) == more
  {
    if more.Ok? {
      assert a + (b + more.value) == a + b + more.value;
      assert [] + more.value == more.value;
    }
  }

  function ReadAll(env: Env, lines: seq<string>): Outcome<seq<Target>> {
    var ts := ReadMany(env, lines);
    if ts == Ok([]) then Err(NoTargets) else ts
  }

  // ------------------------------------------------------------------ what is accepted

  /** i is where c first occurs in s. */
  predicate FirstAt(s: string, c: char, i: int) {
    0 <= i < |s| && s[i] == c && forall j :: 0 <= j < i ==> s[j] != c
  }

  lemma {:induction false} FindFirst(s: string, c: char)
    ensures Find(s, c) == |s| <==> c !in s
    ensures forall i :: FirstAt(s, c, i) ==> Find(s, c) == i
  {
    var k := Find(s, c);
    assert forall j :: 0 <= j < k ==> s[j] == s[..k][j] && s[j] != c;
    assert k < |s| ==> FirstAt(s, c, k);
  }

  /** A request line is accepted if and only if it has a space, begins with a word in capitals and
      what follows the first space is a URL; otherwise the first of the three that fails decides. */
  lemma {:induction false} RequestLineIs(env: Env, line: string, i: int)
    ensures ' ' !in line ==> RequestLine(env, line) == Err(BadTarget(line))
    ensures FirstAt(line, ' ', i) ==>
      RequestLine(env, line) ==
      if !RequestLike(line) then Err(BadMethod(line[..i]))
      else if !env.validURL(line[i + 1..]) then Err(BadURL(line[i + 1..]))
      else Ok(Target(line[..i], line[i + 1..], env.body, env.header))
  {
    FindFirst(line, ' ');
    StartsWithMethodIs(line);
  }

  lemma {:induction false} SkipFillerIs(lines: seq<string>) returns (k: nat)
    ensures k <= |lines| && SkipFiller(lines) == lines[k..]
    ensures forall i :: 0 <= i < k ==> Trim(lines[i]) == "" || Trim(lines[i])[0] == '#'
    ensures k < |lines| ==> Trim(lines[k]) != "" && Trim(lines[k])[0] != '#'
  {
    if lines == [] || !Filler(Trim(lines[0])) {
      k := 0;
    } else {
      var n := SkipFillerIs(lines[1..]);
      k := n + 1;
      assert forall i :: 1 <= i < k ==> lines[i] == lines[1..][i - 1];
    }
  }

  /** A header: a colon with something other than white space on both sides. */
  ghost predicate HeaderLine(line: string) {
    exists i :: FirstAt(line, ':', i) && !Blank(line[..i]) && !Blank(line[i + 1..])
  }

  /** A trimmed line that a block goes on after: a comment or a header. */
  ghost predicate GoesOn(line: string) {
    line != "" && (line[0] == '#' || (line[0] != '@' && HeaderLine(line)))
  }

  /** How many lines the block goes on for. */
  ghost function Going(lines: seq<string>): (k: nat)
    ensures k <= |lines| && (k < |lines| ==> !GoesOn(Trim(lines[k])))
    ensures forall i :: 0 <= i < k ==> GoesOn(Trim(lines[i]))
  {
    if lines == [] || !GoesOn(Trim(lines[0])) then 0
    else
      var k := Going(lines[1..]);
      assert forall i :: 1 <= i < k + 1 ==> lines[i] == lines[1..][i - 1];
      k + 1
  }

  lemma {:induction false} HeaderLineIs(line: string)
    ensures var i := Find(line, ':');
            HeaderLine(line) <==> i < |line| && Trim(line[..i]) != "" && Trim(line[i + 1..]) != ""
  {
    FindFirst(line, ':');
    var i := Find(line, ':');
    if i < |line| {
      var _, _ := TrimIs(line[..i]);
      var _, _ := TrimIs(line[i + 1..]);
      assert FirstAt(line, ':', i);
    }
  }

  /** The block ends well: with the input, a blank line or the line of a body file that is there. */
  ghost predicate EndsWell(env: Env, lines: seq<string>, k: nat)
    requires k <= |lines|
  {
    k < |lines| ==>
      var line := Trim(lines[k]);
      line == "" || (line[0] == '@' && line[1..] in env.files)
  }

  /** The error of a line that neither goes on nor ends a block well. */
  function LineError(line: string): Error
    requires line != ""
  {
    if line[0] == '@' then BadBody(line[1..]) else BadHeader(line)
  }

  /** Header lines are accepted if and only if the first line that is neither a comment nor a header
      ends the block well; otherwise that line is the error. Nothing after it is consumed. */
  lemma {:induction false} HeaderLinesAre(env: Env, t: Target, lines: seq<string>)
    ensures var p, k := HeaderLines(env, t, lines), Going(lines);
            && (p.outcome.Ok? <==> EndsWell(env, lines, k))
            && (p.outcome.Err? ==> p.outcome == Err(LineError(Trim(lines[k]))))
            && p.rest == if k == |lines| then [] else lines[k + 1..]
    decreases |lines|
  {
    if lines == [] {
    } else {
      var line, rest := Trim(lines[0]), lines[1..];
      HeaderLineIs(line);
      if GoesOn(line) {
        var i := Find(line, ':');
        var t' := if line[0] == '#' then t else
          t.(header := WithHeader(t.header, Trim(line[..i]), Trim(line[i + 1..])));
        assert HeaderLines(env, t, lines) == HeaderLines(env, t', rest);
        HeaderLinesAre(env, t', rest);
        assert Going(lines) == Going(rest) + 1;
        var k := Going(rest);
        if k < |rest| {
          assert rest[k] == lines[k + 1] && rest[k + 1..] == lines[k + 2..];
        }
      }
    }
  }

  /** A call succeeds if and only if the first line that is neither blank nor a comment is a good
      request line and what follows is the end, another request or a block that ends well. */
  lemma {:induction false} CallSucceedsIff(env: Env, lines: seq<string>) returns (k: nat)
    ensures k <= |lines| && forall i :: 0 <= i < k ==> Trim(lines[i]) == "" || Trim(lines[i])[0] == '#'
    ensures k < |lines| ==> Trim(lines[k]) != "" && Trim(lines[k])[0] != '#'
    ensures ParseTarget(env, lines).outcome.Ok? <==>
            && k < |lines| && RequestLine(env, Trim(lines[k])).Ok?
            && ((k + 1 < |lines| && RequestLike(Trim(lines[k + 1]))) ||
                EndsWell(env, lines[k + 1..], Going(lines[k + 1..])))
  {
    k := SkipFillerIs(lines);
    if k < |lines| {
      var request, rest := RequestLine(env, Trim(lines[k])), lines[k + 1..];
      assert lines[k..][1..] == rest;
      if request.Ok? && rest != [] {
        StartsWithMethodIs(Trim(rest[0]));
        HeaderLinesAre(env, request.value, rest);
      }
    }
  }

  /** Reading the targets ts one after another leads from the lines rests[0] to the last of rests. */
  ghost predicate Reads(env: Env, ts: seq<Target>, rests: seq<seq<string>>) {
    |rests| == |ts| + 1 &&
    forall i :: 0 <= i < |ts| ==> ParseTarget(env, rests[i]) == Parsed(Ok(ts[i]), rests[i + 1])
  }

  lemma {:induction false} TailReads(env: Env, ts: seq<Target>, rests: seq<seq<string>>)
    requires Reads(env, ts, rests) && ts != []
    ensures Reads(env, ts[1..], rests[1..]) && rests[1..][|ts[1..]|] == rests[|ts|]
    ensures ParseTarget(env, rests[0]) == Parsed(Ok(ts[0]), rests[1])
  {
    var ts', rests' := ts[1..], rests[1..];
    forall i | 0 <= i < |ts'| ensures ParseTarget(env, rests'[i]) == Parsed(Ok(ts'[i]), rests'[i + 1]) {
      assert rests'[i] == rests[i + 1] && ts'[i] == ts[i + 1] && rests'[i + 1] == rests[i + 2];
    }
  }

  lemma {:induction false} ReadStep(env: Env, lines: seq<string>, t: Target, rest: seq<string>)
    requires ParseTarget(env, lines) == Parsed(Ok(t), rest)
    ensures ReadMany(env, lines) == Prepend([t], ReadMany(env, rest))
  {
  }

  lemma {:induction false} ReadManyIs(env: Env, ts: seq<Target>, rests: seq<seq<string>>, error: Error)
    requires Reads(env, ts, rests) && ParseTarget(env, rests[|ts|]).outcome == Err(error)
    ensures ReadMany(env, rests[0]) == if error == NoTargets then Ok(ts) else Err(error)
    decreases |ts|
  {
    if ts == [] {
    } else {
      TailReads(env, ts, rests);
      ReadManyIs(env, ts[1..], rests[1..], error);
      ReadStep(env, rests[0], ts[0], rests[1]);
      assert [ts[0]] + ts[1..] == ts;
    }
  }

  /** Every input is read target by target up to its first error, which is the end if all is well. */
  lemma {:induction false} ReadsToFirstError(env: Env, lines: seq<string>)
    returns (ts: seq<Target>, rests: seq<seq<string>>, error: Error)
    ensures Reads(env, ts, rests) && rests[0] == lines
    ensures ParseTarget(env, rests[|ts|]).outcome == Err(error)
    decreases |lines|
  {
    var p := ParseTarget(env, lines);
    if p.outcome.Err? {
      ts, rests, error := [], [lines], p.outcome.error;
    } else {
      ts, rests, error := ReadsToFirstError(env, p.rest);
      ts, rests := [p.outcome.value] + ts, [lines] + rests;
    }
  }

  /** ReadAllTargets returns all targets up to the end, in order; any other error, and an input
      without targets, discards everything. */
  lemma {:induction false} ReadAllIs(env: Env, lines: seq<string>)
    returns (ts: seq<Target>, rests: seq<seq<string>>, error: Error)
    ensures Reads(env, ts, rests) && rests[0] == lines
    ensures ParseTarget(env, rests[|ts|]).outcome == Err(error)
    ensures ReadAll(env, lines) ==
            if error != NoTargets then Err(error) else if ts == [] then Err(NoTargets) else Ok(ts)
  {
    ts, rests, error := ReadsToFirstError(env, lines);
    ReadManyIs(env, ts, rests, error);
  }

  // ------------------------------------------------------------------ printing

  datatype Item = Comment(text: string) | Field(key: string, value: string)

  /** How a block ends: with a blank line, with the line of a body file, or with nothing. */
  datatype End = Blank | File(path: string) | Open

  /** One target as written in a file, with the blank and comment lines before it. */
  datatype Block = Block(lead: seq<string>, verb: string, url: string, items: seq<Item>, end: End)

  function ItemText(i: Item): string {
    match i
    case Comment(text) => text
    case Field(key, value) => key + ":" + (" " + value)
  }

  function ItemTexts(items: seq<Item>): (ts: seq<string>)
    ensures |ts| == |items|
  {
    if items == [] then [] else [ItemText(items[0])] + ItemTexts(items[1..])
  }

  function RequestText(b: Block): string { b.verb + " " + b.url }

  function EndTexts(e: End): seq<string> {
    match e
    case Blank => [""]
    case File(path) => ["@" + path]
    case Open => []
  }

  function BlockTexts(b: Block): seq<string> {
    b.lead + ([RequestText(b)] + (ItemTexts(b.items) + EndTexts(b.end)))
  }

  function DocTexts(blocks: seq<Block>, trail: seq<string>): seq<string> {
    if blocks == [] then trail else BlockTexts(blocks[0]) + DocTexts(blocks[1..], trail)
  }

  ghost predicate WellformedItem(i: Item) {
    match i
    case Comment(text) => Trimmed(text) && text != "" && text[0] == '#'
    case Field(key, value) =>
      && key != "" && value != "" && Trimmed(key) && Trimmed(value)
      && ':' !in key && key[0] != '#' && key[0] != '@'
  }

  ghost predicate Fillers(texts: seq<string>) {
    forall i :: 0 <= i < |texts| ==> Trimmed(texts[i]) && (texts[i] == "" || texts[i][0] == '#')
  }

  /** The key right after the request line must not itself look like a request. */
  ghost predicate WellformedBlock(env: Env, b: Block) {
    && Fillers(b.lead)
    && b.verb != "" && (forall i :: 0 <= i < |b.verb| ==> IsUpper(b.verb[i]))
    && b.url != "" && !IsSpace(b.url[|b.url| - 1]) && env.validURL(b.url)
    && (forall i :: 0 <= i < |b.items| ==> WellformedItem(b.items[i]))
    && (b.items != [] && b.items[0].Field? ==> !RequestLike(b.items[0].key))
    && (b.end.File? ==> b.end.path in env.files && Trimmed("@" + b.end.path))
  }

  /** A block may be left open at the end of the input, or if it is a bare request line directly
      followed by the next one. */
  ghost predicate Wellformed(env: Env, blocks: seq<Block>, trail: seq<string>) {
    if blocks == [] then Fillers(trail)
    else
      && WellformedBlock(env, blocks[0]) && Wellformed(env, blocks[1..], trail)
      && (blocks[0].end == Open ==>
            || (|blocks| == 1 && trail == [])
            || (blocks[0].items == [] && |blocks| > 1 && blocks[1].lead == []))
  }

  /** The headers of the items, each appended to the values its key already has. */
  function Headers(h: Header, items: seq<Item>): Header
    decreases |items|
  {
    if items == [] then h
    else match items[0]
      case Comment(_) => Headers(h, items[1..])
      case Field(key, value) => Headers(WithHeader(h, key, value), items[1..])
  }

  function Meant(env: Env, b: Block): Target
    requires b.end.File? ==> b.end.path in env.files
  {
    Target(b.verb, b.url, if b.end.File? then env.files[b.end.path] else env.body,
           Headers(env.header, b.items))
  }

  /** The lines show the texts, up to white space around them. */
  ghost predicate Shows(lines: seq<string>, texts: seq<string>) {
    |lines| == |texts| && forall i :: 0 <= i < |lines| ==> Trim(lines[i]) == texts[i]
  }

  /** No key without white space does. */
  lemma {:induction false} PlainKeyIsNoRequest(key: string)
    requires forall i :: 0 <= i < |key| ==> !IsSpace(key[i])
    ensures !RequestLike(key)
  {
  }

  lemma {:induction false} RequestLikeKey(key: string, value: string)
    requires RequestLike(key + ":" + value)
    ensures RequestLike(key)
  {
    var s, k := key + ":" + value, |key|;
    var n :| 0 < n < |s| && s[n] in " \t\n\r\U{000c}" && forall i :: 0 <= i < n ==> 'A' <= s[i] <= 'Z';
    assert s[k] == ':';
    assert forall i :: 0 <= i < k ==> s[i] == key[i];
    assert n < k;
  }

  lemma {:induction false} FirstItemIsNoRequest(item: Item)
    requires WellformedItem(item) && (item.Field? ==> !RequestLike(item.key))
    ensures !StartsWithMethod(ItemText(item))
  {
    StartsWithMethodIs(ItemText(item));
    if item.Field? && RequestLike(ItemText(item)) {
      assert ItemText(item) == item.key + ":" + (" " + item.value);
      RequestLikeKey(item.key, " " + item.value);
      assert false;
    }
  }

  // ------------------------------------------------------------------ the round trip

  lemma {:induction false} ShowsSplit(lines: seq<string>, a: seq<string>, b: seq<string>)
    requires Shows(lines, a + b)
    ensures Shows(lines[..|a|], a) && Shows(lines[|a|..], b)
    ensures lines == lines[..|a|] + lines[|a|..]
  {
    forall i | 0 <= i < |a| ensures Trim(lines[..|a|][i]) == a[i] {
      assert (a + b)[i] == a[i];
    }
    forall i | 0 <= i < |b| ensures Trim(lines[|a|..][i]) == b[i] {
      assert (a + b)[|a| + i] == b[i];
    }
  }

  lemma {:induction false} SkipsFillers(lines: seq<string>, texts: seq<string>, rest: seq<string>)
    requires Shows(lines, texts) && Fillers(texts)
    ensures SkipFiller(lines + rest) == SkipFiller(rest)
  {
    if lines == [] {
      assert lines + rest == rest;
    } else {
      assert (lines + rest)[0] == lines[0] && (lines + rest)[1..] == lines[1..] + rest;
      SkipsFillers(lines[1..], texts[1..], rest);
    }
  }

  lemma {:induction false} RequestSplits(verb: string, url: string)
    requires verb != "" && url != ""
    ensures var s := verb + " " + url;
            && s == verb + [' '] + url && s == verb + ([' '] + url)
            && s[|verb|] == ' ' && s[0] == verb[0] && s[|s| - 1] == url[|url| - 1]
            && s[..|verb|] == verb && s[|verb| + 1..] == url
  {
  }

  /** The request line parses back. */
  lemma {:induction false} RequestParses(env: Env, b: Block)
    requires WellformedBlock(env, b)
    ensures RequestLine(env, RequestText(b)) == Ok(Target(b.verb, b.url, env.body, env.header))
    ensures StartsWithMethod(RequestText(b)) && !Filler(RequestText(b)) && Trimmed(RequestText(b))
  {
    var s := RequestText(b);
    RequestSplits(b.verb, b.url);
    FindIs(b.verb, ' ', b.url);
    UppersIs(b.verb, [' '] + b.url);
  }

  lemma {:induction false} TrimAfterSpace(v: string)
    requires Trimmed(v)
    ensures Trim(" " + v) == v
  {
    assert (" " + v)[1..] == v;
    TrimTrimmed(v);
  }

  /** A header line parses back, wherever it stands. */
  lemma {:induction false} ItemParses(env: Env, t: Target, item: Item, line: string, rest: seq<string>)
    requires WellformedItem(item) && Trim(line) == ItemText(item)
    ensures ItemText(item) != ""
    ensures HeaderLines(env, t, [line] + rest) ==
            HeaderLines(env, t.(header := Headers(t.header, [item])), rest)
  {
    assert ([line] + rest)[1..] == rest;
    assert [item][1..] == [];
    if item.Field? {
      var s, k, v := ItemText(item), item.key, item.value;
      assert s == k + [':'] + (" " + v);
      FindIs(k, ':', " " + v);
      assert s[..|k|] == k && s[|k| + 1..] == " " + v && s[0] == k[0];
      TrimTrimmed(k);
      TrimAfterSpace(v);
    }
  }

  lemma {:induction false} ItemsParse(
    env: Env, t: Target, items: seq<Item>, lines: seq<string>, rest: seq<string>)
    requires forall i :: 0 <= i < |items| ==> WellformedItem(items[i])
    requires Shows(lines, ItemTexts(items))
    ensures HeaderLines(env, t, lines + rest) ==
            HeaderLines(env, t.(header := Headers(t.header, items)), rest)
    decreases |items|
  {
    if items == [] {
      assert lines + rest == rest;
    } else {
      assert lines + rest == [lines[0]] + (lines[1..] + rest);
      var t' := t.(header := Headers(t.header, [items[0]]));
      ItemParses(env, t, items[0], lines[0], lines[1..] + rest);
      assert [items[0]][1..] == [];
      ItemsParse(env, t', items[1..], lines[1..], rest);
    }
  }

  /** The lines after a request line, up to the end of the block. */
  lemma {:induction false} BodyParses(env: Env, b: Block, lines: seq<string>, rest: seq<string>)
    requires WellformedBlock(env, b)
    requires Shows(lines, ItemTexts(b.items) + EndTexts(b.end))
    requires b.end == Open ==> rest == []
    ensures HeaderLines(env, Target(b.verb, b.url, env.body, env.header), lines + rest) ==
            Parsed(Ok(Meant(env, b)), rest)
  {
    var n := |b.items|;
    ShowsSplit(lines, ItemTexts(b.items), EndTexts(b.end));
    var t := Target(b.verb, b.url, env.body, env.header);
    assert lines + rest == lines[..n] + (lines[n..] + rest);
    ItemsParse(env, t, b.items, lines[..n], lines[n..] + rest);
    if b.end == Open {
      assert lines[n..] + rest == [];
    } else {
      assert (lines[n..] + rest)[1..] == rest;
      assert Trim((lines[n..] + rest)[0]) == EndTexts(b.end)[0];
      if b.end.File? { assert ("@" + b.end.path)[1..] == b.end.path; }
    }
  }

  /** The lookahead decides between the next block and the header lines. */
  lemma {:induction false} AfterRequest(env: Env, b: Block, lines: seq<string>, rest: seq<string>)
    requires WellformedBlock(env, b)
    requires Shows(lines, ItemTexts(b.items) + EndTexts(b.end))
    requires b.end == Open ==>
      rest == [] || (b.items == [] && StartsWithMethod(Trim(rest[0])))
    ensures var t := Target(b.verb, b.url, env.body, env.header);
            var ls := lines + rest;
            if ls == [] then Meant(env, b) == t
            else if Trim(ls[0]) == "" || StartsWithMethod(Trim(ls[0])) then
              && Meant(env, b) == t
              && SkipFiller(if ls[0] == "" then ls[1..] else ls) == SkipFiller(rest)
            else
              HeaderLines(env, t, ls) == Parsed(Ok(Meant(env, b)), rest)
  {
    var texts := ItemTexts(b.items) + EndTexts(b.end);
    if lines == [] {
      assert b.items == [] && b.end == Open;
      assert lines + rest == rest;
      if rest != [] { assert rest[0] != "" by { TrimTrimmed(""); } }
    } else {
      assert (lines + rest)[0] == lines[0];
      if b.items != [] {
        assert texts[0] == ItemText(b.items[0]);
        FirstItemIsNoRequest(b.items[0]);
      } else {
        assert texts == EndTexts(b.end);
        assert |lines| == 1 && (lines + rest)[1..] == rest;
      }
      if b.end != Open || rest == [] {
        BodyParses(env, b, lines, rest);
      }
    }
  }

  lemma {:induction false} ShowsHead(lines: seq<string>, text: string, tail: seq<string>)
    requires Shows(lines, [text] + tail)
    ensures lines != [] && Trim(lines[0]) == text && Shows(lines[1..], tail)
  {
    ShowsSplit(lines, [text], tail);
  }

  /** The lines before a request line are skipped. */
  lemma {:induction false} SkipsToRequest(
    env: Env, b: Block, lead: seq<string>, request: string, rest: seq<string>)
    requires WellformedBlock(env, b) && Shows(lead, b.lead) && Trim(request) == RequestText(b)
    ensures SkipFiller(lead + ([request] + rest)) == [request] + rest
  {
    SkipsFillers(lead, b.lead, [request] + rest);
    RequestParses(env, b);
  }

  lemma {:induction false} Around(lines: seq<string>, n: nat, rest: seq<string>)
    requires n < |lines|
    ensures lines[n..][0] == lines[n] && lines[n..][1..] == lines[n + 1..]
    ensures lines + rest == lines[..n] + ([lines[n]] + (lines[n + 1..] + rest))
  {
  }

  lemma {:induction false} LeadSkipped(env: Env, b: Block, lines: seq<string>, rest: seq<string>)
    requires WellformedBlock(env, b) && Shows(lines, BlockTexts(b))
    ensures |b.lead| < |lines| && Trim(lines[|b.lead|]) == RequestText(b)
    ensures Shows(lines[|b.lead| + 1..], ItemTexts(b.items) + EndTexts(b.end))
    ensures SkipFiller(lines + rest) == [lines[|b.lead|]] + (lines[|b.lead| + 1..] + rest)
  {
    var n, tail := |b.lead|, ItemTexts(b.items) + EndTexts(b.end);
    ShowsSplit(lines, b.lead, [RequestText(b)] + tail);
    ShowsHead(lines[n..], RequestText(b), tail);
    Around(lines, n, rest);
    SkipsToRequest(env, b, lines[..n], lines[n], lines[n + 1..] + rest);
  }

  /** One call reads one block and leaves the rest, but for blank lines. */
  lemma {:induction false} BlockParses(env: Env, b: Block, lines: seq<string>, rest: seq<string>)
    requires WellformedBlock(env, b) && Shows(lines, BlockTexts(b))
    requires b.end == Open ==>
      rest == [] || (b.items == [] && StartsWithMethod(Trim(rest[0])))
    ensures var p := ParseTarget(env, lines + rest);
            p.outcome == Ok(Meant(env, b)) && SkipFiller(p.rest) == SkipFiller(rest)
  {
    LeadSkipped(env, b, lines, rest);
    RequestParses(env, b);
    AfterRequest(env, b, lines[|b.lead| + 1..], rest);
    assert SkipFiller(lines + rest)[1..] == lines[|b.lead| + 1..] + rest;
  }

  lemma {:induction false} ReadDependsOnSkip(env: Env, a: seq<string>, b: seq<string>)
    requires SkipFiller(a) == SkipFiller(b)
    ensures ReadMany(env, a) == ReadMany(env, b)
  {
    assert ParseTarget(env, a) == ParseTarget(env, b);
  }

  function MeantAll(env: Env, blocks: seq<Block>): (ts: seq<Target>)
    requires forall b :: b in blocks && b.end.File? ==> b.end.path in env.files
    ensures |ts| == |blocks|
  {
    if blocks == [] then [] else [Meant(env, blocks[0])] + MeantAll(env, blocks[1..])
  }

  lemma {:induction false} FilesKnown(env: Env, blocks: seq<Block>, trail: seq<string>)
    requires Wellformed(env, blocks, trail)
    ensures forall b :: b in blocks && b.end.File? ==> b.end.path in env.files
  {
    if blocks == [] {
    } else {
      FilesKnown(env, blocks[1..], trail);
    }
  }

  lemma {:induction false} ManyRoundTrip(
    env: Env, blocks: seq<Block>, trail: seq<string>, lines: seq<string>)
    requires Wellformed(env, blocks, trail) && Shows(lines, DocTexts(blocks, trail))
    requires forall b :: b in blocks && b.end.File? ==> b.end.path in env.files
    ensures ReadMany(env, lines) == Ok(MeantAll(env, blocks))
    decreases |blocks|
  {
    if blocks == [] {
      SkipsFillers(lines, trail, []);
      assert lines + [] == lines;
    } else {
      var b, more := blocks[0], DocTexts(blocks[1..], trail);
      ShowsSplit(lines, BlockTexts(b), more);
      var n := |BlockTexts(b)|;
      var rest := lines[n..];
      if b.end == Open && |blocks| > 1 {
        var next := blocks[1];
        assert blocks[1..][0] == next;
        assert more[0] == RequestText(next);
        RequestParses(env, next);
      }
      BlockParses(env, b, lines[..n], rest);
      var p := ParseTarget(env, lines);
      ManyRoundTrip(env, blocks[1..], trail, rest);
      ReadDependsOnSkip(env, p.rest, rest);
    }
  }

  /** The round trip: any well-formed targets, printed in any of the allowed layouts and with any
      white space around the lines, are read back in order, with the default body and headers
      merged in; and a file without any is reported as such. */
  lemma {:induction false} RoundTrip(
    env: Env, blocks: seq<Block>, trail: seq<string>, lines: seq<string>)
    requires Wellformed(env, blocks, trail) && Shows(lines, DocTexts(blocks, trail))
    ensures forall b :: b in blocks && b.end.File? ==> b.end.path in env.files
    ensures ReadAll(env, lines) ==
            if blocks == [] then Err(NoTargets) else Ok(MeantAll(env, blocks))
  {
    FilesKnown(env, blocks, trail);
    ManyRoundTrip(env, blocks, trail, lines);
  }

  /** The values of one key among the items, in order. */
  function Values(items: seq<Item>, key: string): seq<string> {
    if items == [] then []
    else (if items[0].Field? && items[0].key == key then [items[0].value] else []) + Values(items[1..], key)
  }

  /** What a header holds for a key; nothing if the key is missing. */
  function Had(h: Header, key: string): seq<string> { if key in h then h[key] else [] }

  lemma {:induction false} Appended(h: Header, k: string, v: string, key: string, more: seq<string>)
    ensures key in WithHeader(h, k, v) <==> key in h || k == key
    ensures Had(WithHeader(h, k, v), key) + more == Had(h, key) + ((if k == key then [v] else []) + more)
  {
    if k == key {
      assert Had(h, key) + [v] + more == Had(h, key) + ([v] + more);
    } else {
      assert [] + more == more;
    }
  }

  /** Merging keeps every default value and appends the target's own values in order. */
  lemma {:induction false} HeadersMerge(h: Header, items: seq<Item>, key: string)
    ensures key in Headers(h, items) <==> key in h || Values(items, key) != []
    ensures Had(Headers(h, items), key) == Had(h, key) + Values(items, key)
    decreases |items|
  {
    if items == [] {
    } else {
      match items[0]
      case Comment(_) =>
        HeadersMerge(h, items[1..], key);
        assert Values(items, key) == Values(items[1..], key);
      case Field(k, v) =>
        HeadersMerge(WithHeader(h, k, v), items[1..], key);
        Appended(h, k, v, key, Values(items[1..], key));
    }
  }

  ghost predicate AllTrimmed(texts: seq<string>) {
    forall i :: 0 <= i < |texts| ==> Trimmed(texts[i])
  }

  lemma {:induction false} PrintedLinesShow(texts: seq<string>)
    requires AllTrimmed(texts)
    ensures Shows(texts, texts)
  {
    forall i | 0 <= i < |texts| ensures Trim(texts[i]) == texts[i] { TrimTrimmed(texts[i]); }
  }

  lemma {:induction false} ItemTextsTrimmed(items: seq<Item>)
    requires forall i :: 0 <= i < |items| ==> WellformedItem(items[i])
    ensures AllTrimmed(ItemTexts(items))
  {
    if items == [] {
    } else {
      var item := items[0];
      if item.Field? {
        var s := ItemText(item);
        assert s[0] == item.key[0] && s[|s| - 1] == item.value[|item.value| - 1];
      }
      ItemTextsTrimmed(items[1..]);
    }
  }

  lemma {:induction false} BlockTextsTrimmed(env: Env, b: Block)
    requires WellformedBlock(env, b)
    ensures AllTrimmed(BlockTexts(b))
  {
    RequestParses(env, b);
    ItemTextsTrimmed(b.items);
    assert AllTrimmed(EndTexts(b.end));
  }

  lemma {:induction false} DocTextsTrimmed(env: Env, blocks: seq<Block>, trail: seq<string>)
    requires Wellformed(env, blocks, trail)
    ensures AllTrimmed(DocTexts(blocks, trail))
  {
    if blocks == [] {
    } else {
      BlockTextsTrimmed(env, blocks[0]);
      DocTextsTrimmed(env, blocks[1..], trail);
    }
  }

  /** In particular what the printer prints is read back literally. */
  lemma {:induction false} PrintedReadsBack(env: Env, blocks: seq<Block>, trail: seq<string>)
    requires Wellformed(env, blocks, trail)
    ensures forall b :: b in blocks && b.end.File? ==> b.end.path in env.files
    ensures ReadAll(env, DocTexts(blocks, trail)) ==
            if blocks == [] then Err(NoTargets) else Ok(MeantAll(env, blocks))
  {
    DocTextsTrimmed(env, blocks, trail);
    PrintedLinesShow(DocTexts(blocks, trail));
    RoundTrip(env, blocks, trail, DocTexts(blocks, trail));
  }

  // ------------------------------------------------------------------ the objects

  /** A bufio.Scanner over `src`, whose current token is `text`, with one line of lookahead. The
      empty string stands for "nothing peeked". */
  class PeekingScanner {
    var src: seq<string>
    var text: string
    var peeked: string

    function Remaining(): seq<string> reads this { if peeked == "" then src else [peeked] + src }

    function Current(): string reads this { if peeked == "" then text else peeked }

    constructor (lines: seq<string>)
      ensures Remaining() == lines && peeked == ""
    {
      src, text, peeked := lines, "", "";
    }

    method SrcScan() returns (ok: bool)
      modifies this
      ensures peeked == old(peeked) && ok == (old(src) != [])
      ensures ok ==> text == old(src)[0] && src == old(src)[1..]
      ensures !ok ==> src == old(src)
    {
      if src == [] {
        return false;
      }
      text, src := src[0], src[1..];
      ok := true;
    }

    /** A peeked blank line is consumed and forgotten; any other line will be scanned next. */
    method Peek() returns (s: string)
      requires peeked == ""
      modifies this
      ensures s == if old(src) == [] then "" else old(src)[0]
      ensures Remaining() == if old(src) != [] && s == "" then old(src)[1..] else old(src)
    {
      var ok := SrcScan();
      if !ok {
        return "";
      }
      peeked := text;
      s := peeked;
    }

    method Scan() returns (ok: bool)
      modifies this
      ensures ok == (old(Remaining()) != [])
      ensures ok ==> Current() == old(Remaining())[0] && src == old(Remaining())[1..]
      ensures !ok ==> Remaining() == []
    {
      if peeked == "" {
        ok := SrcScan();
      } else {
        ok := true;
      }
    }

    method Text() returns (s: string)
      modifies this
      ensures s == old(Current()) && peeked == "" && src == old(src)
    {
      if peeked == "" {
        return text;
      }
      s := peeked;
      peeked := "";
    }
  }

  class HTTPTargeter {
    const sc: PeekingScanner
    const env: Env

    constructor (lines: seq<string>, env: Env)
      ensures fresh(sc) && sc.Remaining() == lines && this.env == env
    {
      this.sc := new PeekingScanner(lines);
      this.env := env;
    }

    /** Scans to the first line that is neither blank nor a comment. */
    method FirstLine() returns (ok: bool, line: string)
      modifies sc
      ensures var ls := SkipFiller(old(sc.Remaining()));
              && ok == (ls != [])
              && (if ok then line == Trim(ls[0]) && sc.peeked == "" && sc.src == ls[1..]
                  else sc.Remaining() == [])
    {
      while true
        invariant SkipFiller(sc.Remaining()) == SkipFiller(old(sc.Remaining()))
        decreases |sc.Remaining()|
      {
        var more := sc.Scan();
        if !more {
          return false, "";
        }
        var s := sc.Text();
        line := Trim(s);
        if |line| != 0 && line[0] != '#' {
          return true, line;
        }
      }
    }

    /** Reads header, comment and body lines into t. */
    method Fill(t: Target) returns (r: Outcome<Target>)
      modifies sc
      ensures Parsed(r, sc.Remaining()) == HeaderLines(env, t, old(sc.Remaining()))
    {
      var tgt := t;
      while true
        invariant HeaderLines(env, tgt, sc.Remaining()) == HeaderLines(env, t, old(sc.Remaining()))
        decreases |sc.Remaining()|
      {
        var more := sc.Scan();
        if !more {
          break;
        }
        var s := sc.Text();
        var line := Trim(s);
        if line == "" {
          return Ok(tgt);
        } else if line[0] == '#' {
          continue;
        } else if line[0] == '@' {
          if line[1..] !in env.files {
            return Err(BadBody(line[1..]));
          }
          return Ok(tgt.(body := env.files[line[1..]]));
        }
        var i := Find(line, ':');
        if i == |line| {
          return Err(BadHeader(line));
        }
        var key, value := Trim(line[..i]), Trim(line[i + 1..]);
        if key == "" || value == "" {
          return Err(BadHeader(line));
        }
        tgt := tgt.(header := WithHeader(tgt.header, key, value));
      }
      r := Ok(tgt);
    }

    /** One call of the targeter. */
    method Next() returns (r: Outcome<Target>)
      modifies sc
      ensures Parsed(r, sc.Remaining()) == ParseTarget(env, old(sc.Remaining()))
    {
      var ok, line := FirstLine();
      if !ok {
        return Err(NoTargets);
      }
      r := RequestLine(env, line);
      if r.Err? {
        return;
      }
      var peeked := sc.Peek();
      line := Trim(peeked);
      if line == "" || StartsWithMethod(line) {
        return;
      }
      r := Fill(r.value);
    }
  }

  /** What one more call adds to the targets read so far. */
  lemma {:induction false} ReadOneMore(
    env: Env, tgts: seq<Target>, lines: seq<string>, next: Outcome<Target>, rest: seq<string>)
    requires ParseTarget(env, lines) == Parsed(next, rest)
    ensures Prepend(tgts, ReadMany(env, lines)) ==
            if next == Err(NoTargets) then Ok(tgts)
            else if next.Err? then Err(next.error)
            else Prepend(tgts + [next.value], ReadMany(env, rest))
  {
    if next == Err(NoTargets) {
      assert tgts + [] == tgts;
    } else if next.Ok? {
      PrependTwice(tgts, [next.value], ReadMany(env, rest));
    }
  }

  /** Reads until the targeter reports that there are no more; any other error discards all. */
  method ReadAllTargets(t: HTTPTargeter) returns (r: Outcome<seq<Target>>)
    modifies t.sc
    ensures r == ReadAll(t.env, old(t.sc.Remaining()))
  {
    ghost var all := ReadMany(t.env, t.sc.Remaining());
    var tgts: seq<Target> := [];
    PrependTwice(tgts, [], all);
    while true
      invariant all == Prepend(tgts, ReadMany(t.env, t.sc.Remaining()))
      decreases |t.sc.Remaining()|
    {
      ghost var lines := t.sc.Remaining();
      var next := t.Next();
      ReadOneMore(t.env, tgts, lines, next, t.sc.Remaining());
      if next == Err(NoTargets) {
        break;
      } else if next.Err? {
        return Err(next.error);
      }
      tgts := tgts + [next.value];
    }
    if |tgts| == 0 {
      return Err(NoTargets);
    }
    r := Ok(tgts);
  }
}
