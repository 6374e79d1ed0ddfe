/** The run-time configuration file: lines, tokens, and what loading a file does to the settings. */
module Conf {
  import opened Results

  const MAX_LINE := 255

  datatype Settings = Settings(uartPort: string, patchPath: string, patchName: string)

  datatype Key = UartPort | FwPatchFilePath | FwPatchFileName

  function KeyName(k: Key): string {
    match k
    case UartPort => "UartPort"
    case FwPatchFilePath => "FwPatchFilePath"
    case FwPatchFileName => "FwPatchFileName"
  }

  function KeyFor(name: string): Option<Key> {
    if name == "UartPort" then Some(UartPort)
    else if name == "FwPatchFilePath" then Some(FwPatchFilePath)
    else if name == "FwPatchFileName" then Some(FwPatchFileName)
    else None
  }

  function Get(s: Settings, k: Key): string {
    match k
    case UartPort => s.uartPort
    case FwPatchFilePath => s.patchPath
    case FwPatchFileName => s.patchName
  }

  function Set(s: Settings, k: Key, value: string): Settings {
    match k
    case UartPort => s.(uartPort := value)
    case FwPatchFilePath => s.(patchPath := value)
    case FwPatchFileName => s.(patchName := value)
  }

  // ----- tokens -----

  predicate Delimiter(c: char) {
    c == ' ' || c == '=' || c == '\n' || c == '\r' || c == '\t'
  }

  /** The string from its first character that is not a delimiter. */
  function Skip(s: string): string {
    if s == "" || !Delimiter(s[0]) then s else Skip(s[1..])
  }

  /** The characters up to the first delimiter. */
  function Word(s: string): (w: string)
    ensures |w| <= |s|
  {
    if s == "" || Delimiter(s[0]) then "" else [s[0]] + Word(s[1..])
  }

  function Token(s: string): string {
    Word(Skip(s))
  }

  function Rest(s: string): string {
    Skip(s)[|Token(s)|..]
  }

  /** A setting is the first two tokens of a line that is not a comment. */
  function Entry(line: string): Option<(string, string)> {
    if line != "" && line[0] == '#' then None
    else if Token(line) == "" || Token(Rest(line)) == "" then None
    else Some((Token(line), Token(Rest(line))))
  }

  function Apply(s: Settings, line: string): Settings {
    match Entry(line)
    case None => s
    case Some(e) => match KeyFor(e.0) case None => s case Some(k) => Set(s, k, e.1)
  }

  function ApplyAll(s: Settings, lines: seq<string>): Settings
    decreases |lines|
  {
    if lines == [] then s else ApplyAll(Apply(s, lines[0]), lines[1..])
  }

  // ----- lines -----

  /** The length of the first line, with its newline if it has one. */
  function LineLength(file: string): (n: nat)
    ensures n <= |file| && (file != "" ==> n > 0)
  {
    if file == "" then 0 else if file[0] == '\n' then 1 else 1 + LineLength(file[1..])
  }

  /** What one fgets call takes: a line, or as much of it as fits. */
  function ChunkLength(file: string): (n: nat)
    ensures n <= |file| && (file != "" ==> n > 0)
  {
    if LineLength(file) <= MAX_LINE then LineLength(file) else MAX_LINE
  }

  function Lines(file: string): seq<string> {
    if file == "" then [] else [file[..LineLength(file)]] + Lines(file[LineLength(file)..])
  }

  function Chunks(file: string): seq<string> {
    if file == "" then [] else [file[..ChunkLength(file)]] + Chunks(file[ChunkLength(file)..])
  }

  function Load(s: Settings, file: string): Settings {
    ApplyAll(s, Chunks(file))
  }

  /** The library sees a file's lines exactly when each of them, newline included, fits the buffer. */
  lemma {:induction false} ChunksAreLinesIff(file: string)
    ensures Chunks(file) == Lines(file) <==> forall i :: 0 <= i < |Lines(file)| ==> |Lines(file)[i]| <= 255
    decreases |file|
  {
    if file != "" {
      var n := LineLength(file);
      var rest := Lines(file[n..]);
      assert Lines(file)[0] == file[..n] && Lines(file)[1..] == rest;
      if n <= MAX_LINE {
        ChunksAreLinesIff(file[n..]);
        assert Chunks(file)[1..] == Chunks(file[n..]);
        assert forall i :: 1 <= i < |Lines(file)| ==> Lines(file)[i] == rest[i - 1];
        assert forall i :: 0 <= i < |rest| ==> rest[i] == Lines(file)[i + 1];
      } else {
        assert |Chunks(file)[0]| == MAX_LINE;
      }
    }
  }

  function Concat(chunks: seq<string>): string {
    if chunks == [] then "" else chunks[0] + Concat(chunks[1..])
  }

  /** A chunk is not empty, has at most 255 characters, and no newline but at its end; unless it is the
      last one it ends in one or is full. */
  predicate ChunkOk(c: string, last: bool) {
    && 0 < |c| <= 255 && (forall p :: 0 <= p < |c| - 1 ==> c[p] != '\n')
    && (last || |c| == 255 || c[|c| - 1] == '\n')
  }

  lemma {:induction false} FirstLine(file: string)
    requires file != ""
    ensures var n := LineLength(file);
            (forall p :: 0 <= p < n - 1 ==> file[p] != '\n') && (n == |file| || file[n - 1] == '\n')
  {
    if file[0] != '\n' && |file| > 1 {
      FirstLine(file[1..]);
      assert forall p :: 1 <= p < |file| ==> file[p] == file[1..][p - 1];
    }
  }

  lemma ChunkIsOk(file: string)
    requires file != ""
    ensures var n := ChunkLength(file); ChunkOk(file[..n], n == |file|)
  {
    FirstLine(file);
  }

  predicate AllOk(chunks: seq<string>) {
    forall i :: 0 <= i < |chunks| ==> ChunkOk(chunks[i], i == |chunks| - 1)
  }

  lemma OkInFront(c: string, rest: seq<string>)
    requires ChunkOk(c, rest == []) && AllOk(rest)
    ensures AllOk([c] + rest) && Concat([c] + rest) == c + Concat(rest)
  {
    var all := [c] + rest;
    assert all[1..] == rest;
    assert forall i :: 1 <= i < |all| ==> all[i] == rest[i - 1];
  }

  /** The chunks spell the file, and are cut nowhere but after a newline or 255 characters. */
  lemma {:induction false} ChunksSpell(file: string)
    ensures Concat(Chunks(file)) == file && AllOk(Chunks(file))
    decreases |file|
  {
    if file != "" {
      var n := ChunkLength(file);
      ChunkIsOk(file);
      ChunksSpell(file[n..]);
      OkInFront(file[..n], Chunks(file[n..]));
    }
  }

  // ----- what a line sets, spelled out -----

  predicate Separates(c: char) {
    c in " =\n\r\t"
  }

  /** Only separators, or none at all, from position i to position j. */
  predicate Gap(s: string, i: int, j: int) {
    0 <= i <= j <= |s| && forall p :: i <= p < j ==> Separates(s[p])
  }

  predicate Bare(s: string, i: int, j: int) {
    0 <= i <= j <= |s| && forall p :: i <= p < j ==> !Separates(s[p])
  }

  /** The name stands at a and the value at c: nothing but separators before and between, and a separator
      or the end after the value. */
  predicate StandsAt(line: string, name: string, value: string, a: int, c: int) {
    var b, d := a + |name|, c + |value|;
    && name != "" && value != "" && b < c
    && Gap(line, 0, a) && Bare(line, a, b) && Gap(line, b, c) && Bare(line, c, d)
    && line[a..b] == name && line[c..d] == value && (d == |line| || Separates(line[d]))
  }

  ghost predicate Reads(line: string, name: string, value: string) {
    && !(line != "" && line[0] == '#')
    && exists a, c :: StandsAt(line, name, value, a, c)
  }

  lemma SeparatesIff(c: char)
    ensures Delimiter(c) <==> Separates(c)
  {
    assert " =\n\r\t" == [' ', '=', '\n', '\r', '\t'];
  }

  lemma {:induction false} SkipIs(s: string, a: nat)
    requires Gap(s, 0, a) && (a == |s| || !Separates(s[a]))
    ensures Skip(s) == s[a..]
  {
    if a > 0 {
      SeparatesIff(s[0]);
      assert forall p :: 0 <= p < a - 1 ==> s[1..][p] == s[p + 1];
      SkipIs(s[1..], a - 1);
    } else if s != "" {
      SeparatesIff(s[0]);
    }
  }

  lemma {:induction false} SkipFinds(s: string) returns (a: nat)
    ensures Gap(s, 0, a) && (a == |s| || !Separates(s[a]))
  {
    a := 0;
    while a < |s| && Separates(s[a])
      invariant Gap(s, 0, a)
    {
      a := a + 1;
    }
  }

  lemma BareWord(s: string, k: nat)
    requires Bare(s, 0, k) && (k == |s| || Separates(s[k]))
    ensures Word(s) == s[..k]
  {
    forall p | 0 <= p < |s| ensures Delimiter(s[p]) <==> Separates(s[p]) {
      SeparatesIff(s[p]);
    }
    WordIs(s, k);
  }

  lemma {:induction false} WordFinds(s: string) returns (k: nat)
    ensures Bare(s, 0, k) && (k == |s| || Separates(s[k]))
  {
    k := 0;
    while k < |s| && !Separates(s[k])
      invariant Bare(s, 0, k)
    {
      k := k + 1;
    }
  }

  lemma {:induction false} WordIs(s: string, k: nat)
    requires k <= |s| && (forall i :: 0 <= i < k ==> !Delimiter(s[i])) && (k == |s| || Delimiter(s[k]))
    ensures Word(s) == s[..k]
  {
    if k > 0 {
      WordIs(s[1..], k - 1);
    }
  }

  lemma SkipFrom(line: string, i: nat, a: nat)
    requires Gap(line, i, a) && (a == |line| || !Separates(line[a]))
    ensures Skip(line[i..]) == line[a..]
  {
    var s := line[i..];
    assert forall p :: 0 <= p < |s| ==> s[p] == line[i + p];
    SkipIs(s, a - i);
    assert s[a - i..] == line[a..];
  }

  lemma WordFrom(line: string, a: nat, b: nat)
    requires Bare(line, a, b) && (b == |line| || Separates(line[b]))
    ensures Word(line[a..]) == line[a..b]
  {
    var s := line[a..];
    assert forall p :: 0 <= p < |s| ==> s[p] == line[a + p];
    BareWord(s, b - a);
    assert s[..b - a] == line[a..b];
  }

  lemma TokenIs(s: string, t: string, w: string)
    requires Skip(s) == t && Word(t) == w
    ensures Token(s) == w && Rest(s) == t[|w|..]
  {
  }

  lemma DropDrop(line: string, a: nat, b: nat)
    requires a <= b <= |line|
    ensures line[a..][|line[a..b]|..] == line[b..]
  {
  }

  predicate IsToken(line: string, i: int, a: int, b: int) {
    && Gap(line, i, a) && Bare(line, a, b)
    && (a == |line| || !Separates(line[a])) && (b == |line| || Separates(line[b]))
  }

  /** The first token of what follows position i, and where it stands. */
  lemma TokenAt(line: string, i: nat, a: nat, b: nat)
    requires IsToken(line, i, a, b)
    ensures Token(line[i..]) == line[a..b] && Rest(line[i..]) == line[b..]
  {
    SkipFrom(line, i, a);
    WordFrom(line, a, b);
    TokenIs(line[i..], line[a..], line[a..b]);
    DropDrop(line, a, b);
  }

  lemma NextToken(line: string, i: nat) returns (a: nat, b: nat)
    requires i <= |line|
    ensures IsToken(line, i, a, b)
    ensures Token(line[i..]) == line[a..b] && Rest(line[i..]) == line[b..]
  {
    var n := SkipFinds(line[i..]);
    a := i + n;
    assert forall p :: i <= p < a ==> line[p] == line[i..][p - i];
    var k := WordFinds(line[a..]);
    b := a + k;
    assert forall p :: a <= p < b ==> line[p] == line[a..][p - a];
    TokenAt(line, i, a, b);
  }

  lemma StandingIsEntry(line: string, name: string, value: string, a: int, c: int)
    requires StandsAt(line, name, value, a, c)
    ensures Token(line) == name && Token(Rest(line)) == value
  {
    assert line[0..] == line;
    TokenAt(line, 0, a, a + |name|);
    TokenAt(line, a + |name|, c, c + |value|);
  }

  lemma EntryStands(line: string) returns (a: int, c: int)
    requires Token(line) != "" && Token(Rest(line)) != ""
    ensures StandsAt(line, Token(line), Token(Rest(line)), a, c)
  {
    assert line[0..] == line;
    var b, d;
    a, b := NextToken(line, 0);
    c, d := NextToken(line, b);
  }

  /** A line is an entry exactly when it is not a comment and reads as name and value. */
  lemma EntryIff(line: string, name: string, value: string)
    ensures Entry(line) == Some((name, value)) <==> Reads(line, name, value)
  {
    if a: int, c: int :| StandsAt(line, name, value, a, c) {
      StandingIsEntry(line, name, value, a, c);
    }
    if Entry(line) == Some((name, value)) {
      var a, c := EntryStands(line);
      assert StandsAt(line, name, value, a, c);
    }
  }

  // ----- last writer wins -----

  /** The line sets the key. */
  predicate Sets(line: string, k: Key) {
    Entry(line).Some? && KeyFor(Entry(line).value.0) == Some(k)
  }

  predicate LastSetter(lines: seq<string>, k: Key, i: int) {
    0 <= i < |lines| && Sets(lines[i], k) && forall j :: i < j < |lines| ==> !Sets(lines[j], k)
  }

  lemma ApplySets(s: Settings, line: string, k: Key)
    ensures Get(Apply(s, line), k) == if Sets(line, k) then Entry(line).value.1 else Get(s, k)
  {
  }

  lemma {:induction false} NoWriter(s: Settings, lines: seq<string>, k: Key)
    requires forall i :: 0 <= i < |lines| ==> !Sets(lines[i], k)
    ensures Get(ApplyAll(s, lines), k) == Get(s, k)
    decreases |lines|
  {
    if lines != [] {
      ApplySets(s, lines[0], k);
      NoWriter(Apply(s, lines[0]), lines[1..], k);
    }
  }

  lemma {:induction false} LastWriter(s: Settings, lines: seq<string>, k: Key, i: int)
    requires LastSetter(lines, k, i)
    ensures Get(ApplyAll(s, lines), k) == Entry(lines[i]).value.1
    decreases |lines|
  {
    if i == 0 {
      ApplySets(s, lines[0], k);
      NoWriter(Apply(s, lines[0]), lines[1..], k);
    } else {
      LastWriter(Apply(s, lines[0]), lines[1..], k, i - 1);
    }
  }

  /** Looking back from line n, after which nothing sets the key. */
  lemma {:induction false} SomeLastSetter(lines: seq<string>, k: Key, n: nat)
    requires n <= |lines| && forall i :: n <= i < |lines| ==> !Sets(lines[i], k)
    ensures (exists i :: LastSetter(lines, k, i)) || forall i :: 0 <= i < |lines| ==> !Sets(lines[i], k)
  {
    if n > 0 && Sets(lines[n - 1], k) {
      assert LastSetter(lines, k, n - 1);
    } else if n > 0 {
      SomeLastSetter(lines, k, n - 1);
    }
  }

  /** The value comes from the last line that sets the key, or is the one before if no line does. */
  ghost predicate FromLast(lines: seq<string>, k: Key, before: string, value: string) {
    || (value == before && forall i :: 0 <= i < |lines| ==> !Sets(lines[i], k))
    || (exists i :: LastSetter(lines, k, i) && value == Entry(lines[i]).value.1)
  }

  lemma LastWriterOf(s: Settings, lines: seq<string>, k: Key)
    ensures FromLast(lines, k, Get(s, k), Get(ApplyAll(s, lines), k))
  {
    SomeLastSetter(lines, k, |lines|);
    if i :| LastSetter(lines, k, i) {
      LastWriter(s, lines, k, i);
    } else {
      NoWriter(s, lines, k);
    }
  }

  /** Loading is a fold in which the last writer wins: each known key ends with the second token of the
      last line that sets it, or unchanged if there is none; nothing else has an effect. */
  lemma LastWriterWins(s: Settings, file: string, k: Key)
    ensures FromLast(Chunks(file), k, Get(s, k), Get(Load(s, file), k))
  {
    LastWriterOf(s, Chunks(file), k);
  }

  ghost predicate ReadsKey(line: string, key: string) {
    exists value :: Reads(line, key, value)
  }

  /** The value after loading is read from the last line that sets the key, or the one before loading if
      no line sets it. */
  ghost predicate FromLastLine(lines: seq<string>, key: string, before: string, after: string) {
    || (after == before && forall i :: 0 <= i < |lines| ==> !ReadsKey(lines[i], key))
    || (exists i :: && 0 <= i < |lines| && Reads(lines[i], key, after)
                    && forall j :: i < j < |lines| ==> !ReadsKey(lines[j], key))
  }

  lemma KeyForIff(name: string, k: Key)
    ensures KeyFor(name) == Some(k) <==> name == KeyName(k)
  {
  }

  lemma SetterReads(line: string, k: Key)
    requires Sets(line, k)
    ensures Reads(line, KeyName(k), Entry(line).value.1)
  {
    var e := Entry(line).value;
    KeyForIff(e.0, k);
    EntryIff(line, e.0, e.1);
  }

  lemma ReaderSets(line: string, k: Key, value: string)
    requires Reads(line, KeyName(k), value)
    ensures Sets(line, k)
  {
    KeyForIff(KeyName(k), k);
    EntryIff(line, KeyName(k), value);
  }

  lemma SetsIff(line: string, k: Key)
    ensures Sets(line, k) <==> ReadsKey(line, KeyName(k))
    ensures Sets(line, k) ==> Reads(line, KeyName(k), Entry(line).value.1)
  {
    if Sets(line, k) {
      SetterReads(line, k);
    }
    if value :| Reads(line, KeyName(k), value) {
      ReaderSets(line, k, value);
    }
  }

  lemma FromLastIs(lines: seq<string>, k: Key, before: string, after: string)
    requires FromLast(lines, k, before, after)
    ensures FromLastLine(lines, KeyName(k), before, after)
  {
    forall i | 0 <= i < |lines| ensures Sets(lines[i], k) <==> ReadsKey(lines[i], KeyName(k)) {
      SetsIff(lines[i], k);
    }
    if i :| LastSetter(lines, k, i) && after == Entry(lines[i]).value.1 {
      SetsIff(lines[i], k);
      assert Reads(lines[i], KeyName(k), after);
    }
  }

  /** What loading a file does to each of the settings. */
  lemma LoadSets(s: Settings, file: string)
    ensures var t := Load(s, file);
            && FromLastLine(Chunks(file), "UartPort", s.uartPort, t.uartPort)
            && FromLastLine(Chunks(file), "FwPatchFilePath", s.patchPath, t.patchPath)
            && FromLastLine(Chunks(file), "FwPatchFileName", s.patchName, t.patchName)
  {
    var t := Load(s, file);
    LastWriterWins(s, file, UartPort);
    FromLastIs(Chunks(file), UartPort, s.uartPort, t.uartPort);
    LastWriterWins(s, file, FwPatchFilePath);
    FromLastIs(Chunks(file), FwPatchFilePath, s.patchPath, t.patchPath);
    LastWriterWins(s, file, FwPatchFileName);
    FromLastIs(Chunks(file), FwPatchFileName, s.patchName, t.patchName);
  }

  // ----- printing and loading back -----

  datatype Item = Comment(text: string) | Assign(key: Key, val: string)

  predicate Plain(s: string) {
    forall i :: 0 <= i < |s| ==> !Delimiter(s[i])
  }

  /** Comments stay on their line, values are non-empty and free of delimiters, and lines fit. */
  predicate Printable(item: Item) {
    && |PrintItem(item)| <= MAX_LINE
    && match item
       case Comment(text) => '\n' !in text
       case Assign(_, value) => value != "" && Plain(value)
  }

  function PrintItem(item: Item): string {
    match item
    case Comment(text) => "#" + text + "\n"
    case Assign(k, value) => KeyName(k) + " = " + value + "\n"
  }

  function Print(items: seq<Item>): string {
    if items == [] then "" else PrintItem(items[0]) + Print(items[1..])
  }

  function Assigned(s: Settings, items: seq<Item>): Settings
    decreases |items|
  {
    if items == [] then s
    else Assigned(if items[0].Assign? then Set(s, items[0].key, items[0].val) else s, items[1..])
  }

  lemma {:induction false} LineOf(line: string, rest: string)
    requires '\n' !in line
    ensures LineLength(line + "\n" + rest) == |line| + 1
    decreases |line|
  {
    var file := line + "\n" + rest;
    if line != "" {
      assert line[0] in line && file[0] == line[0];
      assert file[1..] == line[1..] + "\n" + rest;
      LineOf(line[1..], rest);
    }
  }

  lemma {:induction false} WordOf(w: string, rest: string)
    requires Plain(w) && (rest == "" || Delimiter(rest[0]))
    ensures Word(w + rest) == w
    decreases |w|
  {
    if w != "" {
      assert (w + rest)[0] == w[0] && (w + rest)[1..] == w[1..] + rest;
      WordOf(w[1..], rest);
      assert [w[0]] + w[1..] == w;
    } else {
      assert w + rest == rest;
    }
  }

  lemma TokenOf(w: string, rest: string)
    requires w != "" && Plain(w) && (rest == "" || Delimiter(rest[0]))
    ensures Token(w + rest) == w && Rest(w + rest) == rest
  {
    assert Skip(w + rest) == w + rest;
    WordOf(w, rest);
  }

  lemma SkipOne(c: char, s: string)
    requires Delimiter(c)
    ensures Skip([c] + s) == Skip(s)
  {
    assert ([c] + s)[1..] == s;
  }

  lemma SkipEquals(tail: string)
    ensures Skip(" = " + tail) == Skip(tail)
  {
    assert " = " + tail == [' '] + (['='] + ([' '] + tail));
    SkipOne(' ', tail);
    SkipOne('=', [' '] + tail);
    SkipOne(' ', ['='] + ([' '] + tail));
  }

  lemma KeyStarts(k: Key, after: string)
    ensures (KeyName(k) + after)[0] != '#'
  {
  }

  lemma PrintedEntry(k: Key, value: string)
    requires value != "" && Plain(value)
    ensures Entry(PrintItem(Assign(k, value))) == Some((KeyName(k), value))
  {
    var after := " = " + value + "\n";
    assert PrintItem(Assign(k, value)) == KeyName(k) + after;
    TokenOf(KeyName(k), after);
    SkipEquals(value + "\n");
    assert after == " = " + (value + "\n");
    TokenOf(value, "\n");
    KeyStarts(k, after);
  }

  /** A line that fits, in front of whatever follows, is the first chunk. */
  lemma FirstChunk(line: string, rest: string)
    requires 0 < |line| <= MAX_LINE && line[|line| - 1] == '\n' && '\n' !in line[..|line| - 1]
    ensures Chunks(line + rest) == [line] + Chunks(rest)
  {
    var body := line[..|line| - 1];
    assert line + rest == body + "\n" + rest;
    LineOf(body, rest);
    assert (line + rest)[..|line|] == line && (line + rest)[|line|..] == rest;
  }

  lemma PrintedLine(item: Item)
    requires Printable(item)
    ensures var line := PrintItem(item);
            0 < |line| <= MAX_LINE && line[|line| - 1] == '\n' && '\n' !in line[..|line| - 1]
  {
    var line := PrintItem(item);
    match item
    case Comment(text) => assert line[..|line| - 1] == "#" + text;
    case Assign(k, value) => assert line[..|line| - 1] == KeyName(k) + " = " + value;
  }

  lemma PrintedItem(s: Settings, item: Item, rest: string)
    requires Printable(item)
    ensures Load(s, PrintItem(item) + rest) == Load(if item.Assign? then Set(s, item.key, item.val) else s, rest)
  {
    PrintedLine(item);
    FirstChunk(PrintItem(item), rest);
    if item.Assign? {
      PrintedEntry(item.key, item.val);
    }
  }

  /** Round trip: loading a printed list of assignments and comments carries out the assignments. */
  lemma {:induction false} LoadInvertsPrint(s: Settings, items: seq<Item>)
    requires forall item :: item in items ==> Printable(item)
    ensures Load(s, Print(items)) == Assigned(s, items)
    decreases |items|
  {
    if items != [] {
      PrintedItem(s, items[0], Print(items[1..]));
      LoadInvertsPrint(if items[0].Assign? then Set(s, items[0].key, items[0].val) else s, items[1..]);
    }
  }

  predicate LastAssign(items: seq<Item>, k: Key, i: int) {
    && 0 <= i < |items| && items[i].Assign? && items[i].key == k
    && forall j :: i < j < |items| ==> !(items[j].Assign? && items[j].key == k)
  }

  lemma {:induction false} AssignedLast(s: Settings, items: seq<Item>, k: Key)
    ensures forall i :: LastAssign(items, k, i) ==> Get(Assigned(s, items), k) == items[i].val
    ensures (forall i :: 0 <= i < |items| && items[i].Assign? ==> items[i].key != k) ==>
              Get(Assigned(s, items), k) == Get(s, k)
    decreases |items|
  {
    if items != [] {
      var rest := items[1..];
      AssignedLast(if items[0].Assign? then Set(s, items[0].key, items[0].val) else s, rest, k);
      assert forall i :: 0 <= i < |rest| ==> rest[i] == items[i + 1];
      forall i | LastAssign(items, k, i) ensures Get(Assigned(s, items), k) == items[i].val {
        if i > 0 {
          assert LastAssign(rest, k, i - 1);
        }
      }
    }
  }

  /** Each key has the value printed for it, in whatever order and between whatever comments; keys that
      were not printed keep theirs. */
  lemma LoadGivesAssignment(s: Settings, items: seq<Item>, k: Key)
    requires forall item :: item in items ==> Printable(item)
    ensures forall i :: LastAssign(items, k, i) ==> Get(Load(s, Print(items)), k) == items[i].val
    ensures (forall i :: 0 <= i < |items| && items[i].Assign? ==> items[i].key != k) ==>
              Get(Load(s, Print(items)), k) == Get(s, k)
  {
    LoadInvertsPrint(s, items);
    AssignedLast(s, items, k);
  }
}
