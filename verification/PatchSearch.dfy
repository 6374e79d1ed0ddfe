/** The patch-file search: a directory scan inside a recursion that shortens its own argument. */
module PatchSearch {
  import opened Results

  const PATH_MAXLEN := 248

  /** The configured folder and file name, and what the folder holds in the order it is listed. */
  datatype Folder = Folder(path: string, name: string, opens: bool, entries: seq<string>)

  function Upper(c: char): char {
    if 'a' <= c <= 'z' then c - 'a' + 'A' else c
  }

  predicate IsDigit(c: char) {
    '0' <= c <= '9'
  }

  /** Where a chip name may be cut: anything but a digit or M. */
  predicate Cuttable(c: char) {
    !IsDigit(c) && c != 'M' && c != 'm'
  }

  predicate Clean(s: string) {
    '\0' !in s
  }

  // ----- the simple search -----

  predicate SameCaseless(a: string, b: string) {
    |a| == |b| && forall i :: 0 <= i < |a| ==> Upper(a[i]) == Upper(b[i])
  }

  /** The entry starts with the id and ends in ".hcd", both caselessly. */
  predicate Matches(entry: string, id: string) {
    && |id| <= |entry| && SameCaseless(entry[..|id|], id)
    && |entry| >= 4 && SameCaseless(entry[|entry| - 4..], ".hcd")
  }

  function FirstMatch(entries: seq<string>, id: string): Option<string> {
    if entries == [] then None
    else if Matches(entries[0], id) then Some(entries[0])
    else FirstMatch(entries[1..], id)
  }

  function FullName(folder: Folder, name: string): string
    requires folder.path != ""
  {
    folder.path + (if folder.path[|folder.path| - 1] != '/' then "/" else "") + name
  }

  /** The first match for the id is not too long. */
  predicate Admissible(folder: Folder, id: string) {
    var m := FirstMatch(folder.entries, id);
    m.Some? && |m.value| + |folder.path| <= PATH_MAXLEN
  }

  /** The length the id is cut to when nothing was found for it. */
  function CutAt(id: string): Option<nat> {
    if |id| <= 3 then None
    else if Cuttable(id[|id| - 1]) then Some(|id| - 1)
    else CutAt(id[..|id| - 1])
  }

  lemma {:induction false} CutShortens(id: string)
    ensures CutAt(id).Some? ==>
              3 <= CutAt(id).value < |id| && Cuttable(id[CutAt(id).value])
              && forall i :: CutAt(id).value < i < |id| ==> !Cuttable(id[i])
    ensures CutAt(id).None? ==> forall i :: 3 <= i < |id| ==> !Cuttable(id[i])
  {
    if |id| > 3 && !Cuttable(id[|id| - 1]) {
      CutShortens(id[..|id| - 1]);
    }
  }

  function Search(folder: Folder, id: string): (bool, string)
    requires folder.path != ""
    decreases |id|
  {
    if folder.name != "" then (true, FullName(folder, folder.name))
    else if !folder.opens then (false, id)
    else if Admissible(folder, id) then (true, FullName(folder, FirstMatch(folder.entries, id).value))
    else
      CutShortens(id);
      match CutAt(id)
      case Some(k) => Search(folder, id[..k])
      case None => (false, id)
  }

  // ----- what it finds -----

  /** The lengths the id can have during the search. */
  predicate Candidate(id: string, k: int) {
    k == |id| || (3 <= k < |id| && Cuttable(id[k]))
  }

  ghost predicate Wins(folder: Folder, id: string, k: int) {
    && Candidate(id, k) && Admissible(folder, id[..k])
    && forall j :: k < j && Candidate(id, j) ==> !Admissible(folder, id[..j])
  }

  lemma CandidatesOfCut(id: string, k: nat)
    requires CutAt(id) == Some(k)
    ensures k < |id| && forall j :: Candidate(id, j) <==> j == |id| || Candidate(id[..k], j)
  {
    CutShortens(id);
  }

  lemma {:induction false} SearchFails(folder: Folder, id: string)
    requires folder.path != "" && folder.name == "" && folder.opens
    ensures var r := Search(folder, id);
            !r.0 ==> |r.1| <= |id| && r.1 == id[..|r.1|] && Candidate(id, |r.1|)
                     && (forall j :: Candidate(id, j) ==> |r.1| <= j && !Admissible(folder, id[..j]))
    decreases |id|
  {
    assert id[..|id|] == id;
    CutShortens(id);
    if !Admissible(folder, id) && CutAt(id).Some? {
      var k := CutAt(id).value;
      SearchFails(folder, id[..k]);
      CandidatesOfCut(id, k);
      assert forall j :: 0 <= j <= k ==> id[..k][..j] == id[..j];
    }
  }

  lemma {:induction false} SearchWins(folder: Folder, id: string) returns (k: nat)
    requires folder.path != "" && folder.name == "" && folder.opens && Search(folder, id).0
    ensures Wins(folder, id, k) && Search(folder, id).1 == FullName(folder, FirstMatch(folder.entries, id[..k]).value)
    decreases |id|
  {
    assert id[..|id|] == id;
    CutShortens(id);
    if Admissible(folder, id) {
      k := |id|;
    } else {
      var c := CutAt(id).value;
      k := SearchWins(folder, id[..c]);
      CandidatesOfCut(id, c);
      assert forall j :: 0 <= j <= c ==> id[..c][..j] == id[..j];
    }
  }

  /** For a folder that can be listed and no configured file name: the search succeeds exactly when some
      candidate prefix of the id has an admissible first match, and then it has picked the longest one;
      the name is at most 249 characters.  Otherwise the id has been cut to its shortest candidate. */
  lemma SearchIsLongest(folder: Folder, id: string)
    requires folder.path != "" && folder.name == "" && folder.opens
    ensures var (found, name) := Search(folder, id);
            && (found <==> exists k :: Candidate(id, k) && Admissible(folder, id[..k]))
            && (found ==> |name| <= PATH_MAXLEN + 1
                          && (exists k :: && Wins(folder, id, k)
                                          && name == FullName(folder, FirstMatch(folder.entries, id[..k]).value)))
            && (!found ==> name <= id && Candidate(id, |name|) && forall j :: Candidate(id, j) ==> |name| <= j)
  {
    SearchFails(folder, id);
    if Search(folder, id).0 {
      var k := SearchWins(folder, id);
      assert Candidate(id, k) && Admissible(folder, id[..k]);
    }
  }

  /** The first match is the entry listed first among those that match. */
  lemma {:induction false} FirstMatchIsFirst(entries: seq<string>, id: string)
    ensures var m := FirstMatch(entries, id);
            if m.Some?
            then exists k :: 0 <= k < |entries| && entries[k] == m.value && Matches(m.value, id)
                             && forall j :: 0 <= j < k ==> !Matches(entries[j], id)
            else forall k :: 0 <= k < |entries| ==> !Matches(entries[k], id)
  {
    if entries != [] && !Matches(entries[0], id) {
      FirstMatchIsFirst(entries[1..], id);
      assert forall k :: 1 <= k < |entries| ==> entries[k] == entries[1..][k - 1];
    }
  }

  // ----- the same, spelled out -----

  /** The same character, or the two cases of one letter. */
  predicate SameLetter(c: char, d: char) {
    || c == d
    || ('a' <= c <= 'z' && d as int == c as int - 32)
    || ('a' <= d <= 'z' && c as int == d as int - 32)
  }

  lemma CaselessIff(c: char, d: char)
    ensures Upper(c) == Upper(d) <==> SameLetter(c, d)
  {
  }

  /** The entry starts with the id and ends in ".hcd", in whatever case. */
  predicate Named(entry: string, id: string) {
    var n := |entry|;
    && |id| <= n && (forall i :: 0 <= i < |id| ==> SameLetter(entry[i], id[i]))
    && n >= 4 && entry[n - 4] == '.' && entry[n - 3] in "hH" && entry[n - 2] in "cC" && entry[n - 1] in "dD"
  }

  lemma PrefixIff(entry: string, id: string)
    requires |id| <= |entry|
    ensures SameCaseless(entry[..|id|], id) <==> forall i :: 0 <= i < |id| ==> SameLetter(entry[i], id[i])
  {
    forall i | 0 <= i < |id| ensures Upper(entry[..|id|][i]) == Upper(id[i]) <==> SameLetter(entry[i], id[i]) {
      CaselessIff(entry[i], id[i]);
    }
    assert forall i :: 0 <= i < |id| ==> entry[..|id|][i] == entry[i];
  }

  lemma ExtensionIff(tail: string)
    requires |tail| == 4
    ensures SameCaseless(tail, ".hcd") <==> tail[0] == '.' && tail[1] in "hH" && tail[2] in "cC" && tail[3] in "dD"
  {
    CaselessIff(tail[0], '.');
    CaselessIff(tail[1], 'h');
    CaselessIff(tail[2], 'c');
    CaselessIff(tail[3], 'd');
  }

  lemma MatchesIff(entry: string, id: string)
    ensures Matches(entry, id) <==> Named(entry, id)
  {
    if |id| <= |entry| && |entry| >= 4 {
      PrefixIff(entry, id);
      ExtensionIff(entry[|entry| - 4..]);
    }
  }

  /** Path and name end to end, with a slash between them if the path does not end in one. */
  predicate Joined(path: string, name: string, full: string)
    requires path != ""
  {
    var gap := if path[|path| - 1] == '/' then 0 else 1;
    && |full| == |path| + gap + |name|
    && full[..|path|] == path && full[|path| + gap..] == name
    && (gap == 1 ==> full[|path|] == '/')
  }

  lemma FullNameJoins(folder: Folder, name: string)
    requires folder.path != ""
    ensures Joined(folder.path, name, FullName(folder, name))
  {
  }

  /** The lengths the id is tried at: its own, and from 3 on those where a character other than a digit
      or M is cut off. */
  predicate TriedAt(id: string, k: int) {
    k == |id| || (3 <= k < |id| && id[k] !in "0123456789Mm")
  }

  lemma TriedIff(id: string, k: int)
    ensures Candidate(id, k) <==> TriedAt(id, k)
  {
    if 3 <= k < |id| {
      var c := id[k];
      assert c in "0123456789Mm" <==>
             c in ['0', '1', '2', '3', '4', '5', '6', '7', '8', '9'] || c == 'M' || c == 'm';
    }
  }

  predicate FirstNamed(entries: seq<string>, id: string, j: int) {
    0 <= j < |entries| && Named(entries[j], id) && forall i :: 0 <= i < j ==> !Named(entries[i], id)
  }

  /** At length k the id is tried, entry j is the first one named for it, and the full path fits. */
  predicate Suits(folder: Folder, id: string, k: int, j: int) {
    && TriedAt(id, k) && 0 <= k <= |id|
    && FirstNamed(folder.entries, id[..k], j) && |folder.entries[j]| + |folder.path| <= 248
  }

  lemma FirstNamedIs(entries: seq<string>, id: string, j: int)
    requires FirstNamed(entries, id, j)
    ensures FirstMatch(entries, id) == Some(entries[j])
  {
    FirstMatchIsFirst(entries, id);
    forall i | 0 <= i < |entries| ensures Matches(entries[i], id) <==> Named(entries[i], id) {
      MatchesIff(entries[i], id);
    }
  }

  lemma AdmissibleHas(folder: Folder, id: string) returns (j: int)
    requires Admissible(folder, id)
    ensures FirstNamed(folder.entries, id, j) && FirstMatch(folder.entries, id) == Some(folder.entries[j])
    ensures |folder.entries[j]| + |folder.path| <= 248
  {
    var entries := folder.entries;
    FirstMatchIsFirst(entries, id);
    j :| 0 <= j < |entries| && entries[j] == FirstMatch(entries, id).value && Matches(entries[j], id)
         && forall i :: 0 <= i < j ==> !Matches(entries[i], id);
    forall i | 0 <= i < |entries| ensures Matches(entries[i], id) <==> Named(entries[i], id) {
      MatchesIff(entries[i], id);
    }
  }

  lemma SuitsIff(folder: Folder, id: string, k: int)
    ensures (exists j :: Suits(folder, id, k, j)) <==> Candidate(id, k) && Admissible(folder, id[..k])
  {
    TriedIff(id, k);
    if Candidate(id, k) && Admissible(folder, id[..k]) {
      var j := AdmissibleHas(folder, id[..k]);
      assert Suits(folder, id, k, j);
    }
    if j :| Suits(folder, id, k, j) {
      FirstNamedIs(folder.entries, id[..k], j);
    }
  }

  /** No length above k suits, and entry j does at k. */
  ghost predicate Longest(folder: Folder, id: string, k: int, j: int) {
    Suits(folder, id, k, j) && forall k1, j1 :: Suits(folder, id, k1, j1) ==> k1 <= k
  }

  lemma SearchFindsLongest(folder: Folder, id: string) returns (k: int, j: int)
    requires folder.path != "" && folder.name == "" && folder.opens && Search(folder, id).0
    ensures Longest(folder, id, k, j) && Joined(folder.path, folder.entries[j], Search(folder, id).1)
  {
    k := SearchWins(folder, id);
    j := AdmissibleHas(folder, id[..k]);
    TriedIff(id, k);
    FullNameJoins(folder, folder.entries[j]);
    forall k1, j1 | Suits(folder, id, k1, j1) ensures k1 <= k {
      SuitsIff(folder, id, k1);
    }
  }

  /** What the search promises.  A configured name is taken as it is.  A folder that cannot be listed
      leaves the id alone.  Otherwise the longest length that suits is taken if there is one, and if
      there is none the id is left cut to the shortest length tried. */
  lemma SearchPromise(folder: Folder, id: string)
    requires folder.path != ""
    ensures var (found, name) := Search(folder, id);
            && (folder.name != "" ==> found && Joined(folder.path, folder.name, name))
            && (folder.name == "" && !folder.opens ==> !found && name == id)
            && (folder.name == "" && folder.opens ==>
                  && (found <==> exists k, j :: Suits(folder, id, k, j))
                  && (found ==> |name| <= 249
                                && exists k, j :: && Longest(folder, id, k, j)
                                                  && Joined(folder.path, folder.entries[j], name))
                  && (!found ==> name <= id && TriedAt(id, |name|) && forall k :: TriedAt(id, k) ==> |name| <= k))
  {
    if folder.name != "" {
      FullNameJoins(folder, folder.name);
    } else if folder.opens {
      SearchIsLongest(folder, id);
      if Search(folder, id).0 {
        var k, j := SearchFindsLongest(folder, id);
        assert Longest(folder, id, k, j);
      } else {
        NothingSuits(folder, id);
      }
    }
  }

  lemma NothingSuits(folder: Folder, id: string)
    requires folder.path != "" && folder.name == "" && folder.opens && !Search(folder, id).0
    ensures var name := Search(folder, id).1;
            && !(exists k, j :: Suits(folder, id, k, j))
            && TriedAt(id, |name|) && forall k :: TriedAt(id, k) ==> |name| <= k
  {
    SearchFails(folder, id);
    TriedIff(id, |Search(folder, id).1|);
    forall k ensures TriedAt(id, k) <==> Candidate(id, k) {
      TriedIff(id, k);
    }
    forall k, j ensures !Suits(folder, id, k, j) {
      SuitsIff(folder, id, k);
    }
  }
}
