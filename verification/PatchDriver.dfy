/** hw_config_findpatch as the library runs it, on a zero-terminated string changed in place. */
module PatchDriver {
  import opened PatchSearch
  import opened Results

  const LONGEST := PATH_MAXLEN + 1

  /** The buffer holds the string and its terminator. */
  ghost predicate Holds(buf: array<char>, s: string)
    reads buf
  {
    |s| < buf.Length && buf[..|s|] == s && buf[|s|] == '\0' && Clean(s)
  }

  method StrLen(buf: array<char>, ghost s: string) returns (n: nat)
    requires Holds(buf, s)
    ensures n == |s|
  {
    forall i | 0 <= i < |s| ensures buf[i] != '\0' {
      assert s[i] in s && s[i] == buf[..|s|][i];
    }
    n := 0;
    while buf[n] != '\0'
      invariant n <= |s|
      decreases |s| - n
    {
      n := n + 1;
    }
  }

  method StrCat(buf: array<char>, ghost s: string, src: string)
    requires Holds(buf, s) && Clean(src) && |s| + |src| < buf.Length
    modifies buf
    ensures Holds(buf, s + src)
  {
    var n := StrLen(buf, s);
    for i := 0 to |src|
      invariant buf[..n] == s && buf[n..n + i] == src[..i]
    {
      buf[n + i] := src[i];
    }
    buf[n + |src|] := '\0';
    assert buf[..n + |src|] == s + src;
  }

  method StrCpy(buf: array<char>, src: string)
    requires Clean(src) && |src| < buf.Length
    modifies buf
    ensures Holds(buf, src)
  {
    buf[0] := '\0';
    StrCat(buf, [], src);
    assert [] + src == src;
  }

  /** Caseless comparison of the first `len` characters; past its end a string reads as its terminator,
      and no string is read further than that. */
  method HwStrncmp(a: string, b: string, len: nat) returns (differs: nat)
    requires len <= |b| && Clean(a) && Clean(b)
    ensures differs == 0 <==> len <= |a| && SameCaseless(a[..len], b[..len])
    ensures differs > 0 ==> differs <= len && differs - 1 <= |a|
  {
    var i := 0;
    while i < len
      invariant i <= len && i <= |a| && SameCaseless(a[..i], b[..i])
    {
      var x := if i < |a| then a[i] else '\0';
      if Upper(x) != Upper(b[i]) {
        assert i < |a| && len <= |a| ==> a[..len][i] == x && b[..len][i] == b[i];
        return i + 1;
      }
      assert b[i] in b;
      i := i + 1;
    }
    return 0;
  }

  /** The readdir loop: the first entry that matches. */
  method Scan(entries: seq<string>, id: string) returns (m: Option<string>)
    requires Clean(id) && forall e :: e in entries ==> Clean(e)
    ensures m == FirstMatch(entries, id)
  {
    m := None;
    var k := 0;
    while k < |entries|
      invariant k <= |entries| && FirstMatch(entries, id) == FirstMatch(entries[k..], id)
    {
      var entry := entries[k];
      assert entries[k..][0] == entry && entries[k..][1..] == entries[k + 1..];
      var differs := HwStrncmp(entry, id, |id|);
      assert id[..|id|] == id;
      if differs == 0 && |entry| >= 4 {
        var tail := entry[|entry| - 4..];
        differs := HwStrncmp(tail, ".hcd", 4);
        assert tail[..4] == tail && ".hcd"[..4] == ".hcd";
        if differs == 0 {
          return Some(entry);
        }
      }
      k := k + 1;
    }
  }

  /** Path, slash if missing, name. */
  method StoreFullName(folder: Folder, name: string, id: array<char>)
    requires folder.path != "" && Clean(folder.path) && Clean(name) && |folder.path| + 1 + |name| < id.Length
    modifies id
    ensures Holds(id, FullName(folder, name)) && Joined(folder.path, name, FullName(folder, name))
  {
    StrCpy(id, folder.path);
    ghost var s := folder.path;
    if folder.path[|folder.path| - 1] != '/' {
      StrCat(id, s, "/");
      s := s + "/";
    }
    StrCat(id, s, name);
    assert s + name == FullName(folder, name);
    FullNameJoins(folder, name);
  }

  /** Walk back from the end of the id to the last character it may be cut at. */
  method FindCut(id: array<char>, ghost s: string) returns (len: nat)
    requires Holds(id, s)
    ensures if CutAt(s).Some? then len == CutAt(s).value + 1 && len > 3 else len <= 3
  {
    len := StrLen(id, s);
    assert s[..len] == s;
    while len > 3
      invariant len <= |s| && CutAt(s) == CutAt(s[..len])
    {
      assert s[..len][..len - 1] == s[..len - 1] && s[len - 1] == id[len - 1];
      if Cuttable(id[len - 1]) {
        return;
      }
      len := len - 1;
    }
  }

  method HwConfigFindpatch(folder: Folder, id: array<char>, ghost s: string) returns (found: bool)
    requires folder.path != "" && Clean(folder.path) && Clean(folder.name)
    requires forall e :: e in folder.entries ==> Clean(e)
    requires Holds(id, s) && id.Length > LONGEST
    requires folder.name != "" ==> |folder.path| + 1 + |folder.name| < id.Length
    modifies id
    ensures found == Search(folder, s).0 && Holds(id, Search(folder, s).1)
    decreases |s|
  {
    if folder.name != "" {
      StoreFullName(folder, folder.name, id);
      return true;
    }
    found := false;
    if folder.opens {
      var n := StrLen(id, s);
      var m := Scan(folder.entries, id[..n]);
      if m.Some? && |m.value| + |folder.path| <= PATH_MAXLEN {
        FirstMatchIsFirst(folder.entries, s);
        StoreFullName(folder, m.value, id);
        found := true;
      }
      if !found {
        var len := FindCut(id, s);
        CutShortens(s);
        if len > 3 {
          id[len - 1] := '\0';
          assert id[..len - 1] == s[..len - 1];
          found := HwConfigFindpatch(folder, id, s[..len - 1]);
        }
      }
    }
  }
}
