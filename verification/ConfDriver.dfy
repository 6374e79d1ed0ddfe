/** vnd_load_conf as the library runs it: a line buffer that strtok cuts up in place. */
module ConfDriver {
  import opened Conf
  import opened Results

  predicate Clean(s: string) {
    forall i :: 0 <= i < |s| ==> s[i] != '\0'
  }

  /** The zero-terminated string at position p. */
  predicate StringAt(buf: array<char>, p: nat, s: string)
    reads buf
  {
    p + |s| < buf.Length && buf[p..p + |s|] == s && buf[p + |s|] == '\0' && Clean(s)
  }

  lemma {:induction false} ChunkIs(file: string, n: nat)
    requires 0 < n <= |file| && n <= MAX_LINE && forall i :: 0 <= i < n - 1 ==> file[i] != '\n'
    requires file[n - 1] == '\n' || n == |file| || n == MAX_LINE
    ensures ChunkLength(file) == n
  {
    LineStartsPast(file, n);
  }

  lemma {:induction false} LineStartsPast(file: string, n: nat)
    requires 0 < n <= |file| && forall i :: 0 <= i < n - 1 ==> file[i] != '\n'
    ensures LineLength(file) >= n && (file[n - 1] == '\n' || n == |file| ==> LineLength(file) == n)
  {
    if n > 1 {
      assert forall i :: 0 <= i < n - 2 ==> file[1..][i] == file[i + 1];
      LineStartsPast(file[1..], n - 1);
    }
  }

  /** fgets: the next line, newline included, or as much of it as fits. */
  method Fgets(file: string, pos: nat, line: array<char>) returns (n: nat)
    requires pos < |file| && Clean(file) && line.Length == MAX_LINE + 1
    modifies line
    ensures n == ChunkLength(file[pos..]) && StringAt(line, 0, file[pos..pos + n])
  {
    n := 0;
    while n < MAX_LINE && pos + n < |file| && (n == 0 || file[pos + n - 1] != '\n')
      invariant n <= MAX_LINE && pos + n <= |file| && line[..n] == file[pos..pos + n]
      invariant forall i :: pos <= i < pos + n - 1 ==> file[i] != '\n'
    {
      line[n] := file[pos + n];
      n := n + 1;
    }
    assert forall i :: 0 <= i < n - 1 ==> file[pos..][i] == file[pos + i];
    ChunkIs(file[pos..], n);
    line[n] := '\0';
    assert line[0..0 + n] == file[pos..pos + n];
  }

  method SkipDelimiters(line: array<char>, p: nat, ghost s: string) returns (start: nat)
    requires StringAt(line, p, s)
    ensures StringAt(line, start, Skip(s))
  {
    start := p;
    ghost var t := s;
    while line[start] != '\0' && Delimiter(line[start])
      invariant StringAt(line, start, t) && Skip(t) == Skip(s)
      decreases |t|
    {
      assert t != "" && t[0] == line[start];
      start, t := start + 1, t[1..];
    }
    assert t != "" ==> line[start] == t[0];
  }

  method WordEnd(line: array<char>, start: nat, ghost t: string) returns (end: nat)
    requires StringAt(line, start, t)
    ensures start <= end < line.Length && line[start..end] == Word(t) && StringAt(line, end, t[|Word(t)|..])
  {
    end := start;
    while line[end] != '\0' && !Delimiter(line[end])
      invariant start <= end <= start + |t|
      invariant forall i :: 0 <= i < end - start ==> !Delimiter(t[i])
      decreases start + |t| - end
    {
      CharAt(line, start, t, end - start);
      end := end + 1;
    }
    CharAt(line, start, t, end - start);
    CutAt(line, start, t, end - start);
    WordIs(t, end - start);
  }

  lemma CharAt(line: array<char>, start: nat, t: string, k: nat)
    requires StringAt(line, start, t) && k <= |t|
    ensures line[start + k] == if k < |t| then t[k] else '\0'
    ensures k < |t| ==> line[start + k] != '\0'
  {
    assert k < |t| ==> line[start..start + |t|][k] == t[k];
  }

  /** A position within the string cuts it in two, the second of them a string of its own. */
  lemma CutAt(line: array<char>, start: nat, t: string, k: nat)
    requires StringAt(line, start, t) && k <= |t|
    ensures line[start..start + k] == t[..k] && StringAt(line, start + k, t[k..])
  {
    var s := line[start..start + |t|];
    assert s[..k] == line[start..start + k] && s[k..] == line[start + k..start + |t|];
  }

  /** strtok: the token at or after p, cut off with a terminator, and where the rest begins. */
  method Strtok(line: array<char>, p: nat, ghost s: string)
    returns (token: Option<string>, next: nat, ghost rest: string)
    requires StringAt(line, p, s)
    modifies line
    ensures token == if Token(s) == "" then None else Some(Token(s))
    ensures token.Some? ==> StringAt(line, next, rest) && Token(rest) == Token(Rest(s))
  {
    var start := SkipDelimiters(line, p, s);
    next := WordEnd(line, start, Skip(s));
    rest := Rest(s);
    if start == next {
      return None, next, rest;
    }
    token := Some(line[start..next]);
    EndsAtDelimiter(Skip(s));
    next, rest := CutToken(line, next, rest);
  }

  /** strtok ends a token by overwriting the delimiter after it, if there is one. */
  method CutToken(line: array<char>, end: nat, ghost r: string) returns (next: nat, ghost rest: string)
    requires StringAt(line, end, r) && (r != "" ==> Delimiter(r[0]))
    modifies line
    ensures StringAt(line, next, rest) && Token(rest) == Token(r)
  {
    next, rest := end, r;
    if line[end] != '\0' {
      Terminate(line, end, r);
      next, rest := end + 1, r[1..];
    }
  }

  /** Overwriting the first character of a string leaves the string after it. */
  method Terminate(line: array<char>, p: nat, ghost s: string)
    requires StringAt(line, p, s) && line[p] != '\0'
    modifies line
    ensures s != "" && StringAt(line, p + 1, s[1..])
  {
    ghost var after := line[p + 1..p + |s|];
    assert line[p..p + |s|][1..] == after;
    line[p] := '\0';
    assert line[p + 1..p + |s|] == after;
  }

  lemma {:induction false} EndsAtDelimiter(s: string)
    ensures |Word(s)| < |s| ==> Delimiter(s[|Word(s)|])
  {
    if s != "" && !Delimiter(s[0]) {
      EndsAtDelimiter(s[1..]);
    }
  }

  const TABLE: seq<Key> := [UartPort, FwPatchFilePath, FwPatchFileName]

  /** The settings of userial_vendor.c and hardware.c that the table's actions write. */
  class Configuration {
    var uartPort: string
    var patchPath: string
    var patchName: string

    constructor (s: Settings)
      ensures Snapshot() == s
    {
      uartPort, patchPath, patchName := s.uartPort, s.patchPath, s.patchName;
    }

    function Snapshot(): Settings
      reads this
    {
      Settings(uartPort, patchPath, patchName)
    }

    /** The walk over the table. */
    method Act(name: string, value: string)
      modifies this
      ensures Snapshot() == match KeyFor(name)
                            case None => old(Snapshot())
                            case Some(k) => Set(old(Snapshot()), k, value)
    {
      var i: nat := 0;
      while i < |TABLE|
        invariant i <= |TABLE| && Snapshot() == old(Snapshot())
        invariant forall j :: 0 <= j < i ==> KeyName(TABLE[j]) != name
      {
        if KeyName(TABLE[i]) == name {
          match TABLE[i] {
            case UartPort => uartPort := value;
            case FwPatchFilePath => patchPath := value;
            case FwPatchFileName => patchName := value;
          }
          return;
        }
        i := i + 1;
      }
      assert TABLE[0].UartPort? && TABLE[1].FwPatchFilePath? && TABLE[2].FwPatchFileName?;
    }

    /** One line, cut up in the buffer. */
    method LoadLine(line: array<char>, ghost s: string)
      requires s != "" && StringAt(line, 0, s)
      modifies this, line
      ensures Snapshot() == Apply(old(Snapshot()), s)
    {
      assert line[0] == line[0..0 + |s|][0] == s[0];
      if line[0] != '#' {
        var name, next, rest := Strtok(line, 0, s);
        if name.Some? {
          var value, _, _ := Strtok(line, next, rest);
          if value.Some? {
            Act(name.value, value.value);
          }
        }
      }
    }

    /** A missing file changes nothing. */
    method VndLoadConf(file: Option<string>)
      requires file.Some? ==> Clean(file.value)
      modifies this
      ensures Snapshot() == if file.Some? then Load(old(Snapshot()), file.value) else old(Snapshot())
    {
      if file.None? {
        return;
      }
      var text := file.value;
      var line := new char[MAX_LINE + 1];
      var pos := 0;
      while pos < |text|
        invariant pos <= |text|
        invariant Load(old(Snapshot()), text) == Load(Snapshot(), text[pos..])
      {
        var n := Fgets(text, pos, line);
        ghost var s := text[pos..pos + n];
        LoadLine(line, s);
        assert text[pos..][..n] == s && text[pos..][n..] == text[pos + n..];
        pos := pos + n;
      }
    }
  }
}
