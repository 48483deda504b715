/**
 * Shell completion of profile names (package internal/cli): the profile files
 * of the profiles directory, without their ".yml" extension, that start with
 * the word being completed.
 */
module Completion {
  import opened Text

  /** An entry of the profiles directory. */
  datatype DirEntry = DirEntry(name: string, isDir: bool)

  /** What reading the profiles directory gives. */
  datatype Listing =
    | NoHomeDir             // os.UserHomeDir failed
    | Missing               // the directory does not exist
    | Unreadable            // any other read error
    | Entries(entries: seq<DirEntry>)

  /** The completion directive returned to the shell. */
  datatype Directive = NoFileComp | DirectiveError

  const ProfileExt := ".yml"

  /** The profile name a profile file offers. */
  function Offered(e: DirEntry): (r: string)
    requires !e.isDir && HasSuffix(e.name, ProfileExt)
    ensures r + ProfileExt == e.name
  {
    TrimSuffix(e.name, ProfileExt)
  }

  /** Whether the entry is a profile file whose name starts with `toComplete`. */
  predicate Keeps(e: DirEntry, toComplete: string) {
    !e.isDir && HasSuffix(e.name, ProfileExt) && HasPrefix(Offered(e), toComplete)
  }

  /** The filter-map over the directory entries. */
  function Profiles(entries: seq<DirEntry>, toComplete: string): (r: seq<string>)
    ensures |r| <= |entries|
  {
    if entries == [] then []
    else
      var rest := Profiles(entries[1..], toComplete);
      if Keeps(entries[0], toComplete) then [Offered(entries[0])] + rest else rest
  }

  /** CompletionProfiles: the offered names and the directive. */
  function CompleteProfiles(listing: Listing, toComplete: string): (r: (seq<string>, Directive))
    ensures listing.Missing? ==> r == ([], NoFileComp)
    ensures listing.NoHomeDir? || listing.Unreadable? ==> r == ([], DirectiveError)
    ensures listing.Entries? ==> r.1 == NoFileComp
  {
    match listing
    case NoHomeDir => ([], DirectiveError)
    case Missing => ([], NoFileComp)
    case Unreadable => ([], DirectiveError)
    case Entries(entries) => (Profiles(entries, toComplete), NoFileComp)
  }

  /**
   * A name is offered exactly when some entry is a profile file (not a
   * directory, ending in ".yml") whose name without the extension is that
   * name and starts with the word being completed.
   */
  lemma {:induction false} OfferedIff(entries: seq<DirEntry>, toComplete: string, p: string)
    ensures p in Profiles(entries, toComplete) <==>
      exists k :: 0 <= k < |entries| && Keeps(entries[k], toComplete) && Offered(entries[k]) == p
  {
    if entries != [] {
      OfferedIff(entries[1..], toComplete, p);
      if exists k :: 0 <= k < |entries| && Keeps(entries[k], toComplete) && Offered(entries[k]) == p {
        var k :| 0 <= k < |entries| && Keeps(entries[k], toComplete) && Offered(entries[k]) == p;
        if k > 0 {
          assert entries[1..][k - 1] == entries[k];
        }
      }
      if exists k :: 0 <= k < |entries[1..]| && Keeps(entries[1..][k], toComplete) && Offered(entries[1..][k]) == p {
        var k :| 0 <= k < |entries[1..]| && Keeps(entries[1..][k], toComplete) && Offered(entries[1..][k]) == p;
        assert entries[k + 1] == entries[1..][k];
      }
    }
  }

  /** Every offered name starts with the word being completed and names a ".yml" file. */
  lemma {:induction false} OfferedShape(entries: seq<DirEntry>, toComplete: string)
    ensures forall p :: p in Profiles(entries, toComplete) ==>
      HasPrefix(p, toComplete) && DirEntry(p + ProfileExt, false) in entries
  {
    if entries != [] {
      OfferedShape(entries[1..], toComplete);
      if Keeps(entries[0], toComplete) {
        assert entries[0] == DirEntry(Offered(entries[0]) + ProfileExt, false);
      }
    }
  }

  /** Filtering preserves directory order: the entries' offers are concatenated in order. */
  lemma {:induction false} ProfilesAppend(a: seq<DirEntry>, b: seq<DirEntry>, toComplete: string)
    ensures Profiles(a + b, toComplete) == Profiles(a, toComplete) + Profiles(b, toComplete)
  {
    if a == [] {
      assert a + b == b;
    } else {
      assert (a + b)[0] == a[0];
      assert (a + b)[1..] == a[1..] + b;
      ProfilesAppend(a[1..], b, toComplete);
    }
  }

  /** An empty word keeps every profile file. */
  lemma EmptyWordKeepsAll(entries: seq<DirEntry>, k: nat)
    requires k < |entries| && !entries[k].isDir && HasSuffix(entries[k].name, ProfileExt)
    ensures Offered(entries[k]) in Profiles(entries, "")
  {
    assert Keeps(entries[k], "");
    OfferedIff(entries, "", Offered(entries[k]));
  }

  /** Typing more characters only narrows the offers. */
  lemma {:induction false} LongerWordNarrows(entries: seq<DirEntry>, w: string, more: string)
    ensures forall p :: p in Profiles(entries, w + more) ==> p in Profiles(entries, w)
  {
    if entries != [] {
      LongerWordNarrows(entries[1..], w, more);
      var e := entries[0];
      if Keeps(e, w + more) {
        var p := Offered(e);
        assert p[..|w|] == (w + more)[..|w|] == w;
        assert Keeps(e, w);
      }
    }
  }
}
