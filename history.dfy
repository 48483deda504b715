/**
 * The execution history: a newest-first list of at most `MaxHistorySize`
 * entries kept in one file. The file is modelled by its state; reading and
 * writing it are the only effects, and a write either happens or fails.
 */
module History {
  import opened Wrappers

  const MaxHistorySize: nat := 100

  /** `command` is the file or command that was run; `timestamp` is the clock reading. */
  datatype HistoryEntry = HistoryEntry(timestamp: int, command: string, ruleName: string)

  /** The history file as the loader finds it. */
  datatype HistoryFile =
    | NoHome                                // the home directory cannot be determined
    | Missing                               // the file does not exist
    | Unreadable                            // reading or decoding fails
    | Stored(entries: seq<HistoryEntry>)

  datatype HistoryError = HomeDirError | ReadError | WriteError

  /** The file after an attempt to save, and the error the attempt returned, if any. */
  datatype Saved = Saved(file: HistoryFile, err: Option<HistoryError>)

  function Min(a: nat, b: nat): nat {
    if a <= b then a else b
  }

  /** LoadHistory: a missing file is an empty history; other failures are errors. */
  function LoadHistory(f: HistoryFile): (r: Result<seq<HistoryEntry>, HistoryError>)
    ensures r.Ok? <==> f.Missing? || f.Stored?
    ensures f.Missing? ==> r == Ok([])
    ensures f.Stored? ==> r == Ok(f.entries)
    ensures f.NoHome? ==> r == Err(HomeDirError)
  {
    match f
    case NoHome => Err(HomeDirError)
    case Missing => Ok([])
    case Unreadable => Err(ReadError)
    case Stored(es) => Ok(es)
  }

  /** saveHistory: the write replaces the file, unless it fails. */
  function Save(f: HistoryFile, entries: seq<HistoryEntry>, writes: bool): (r: Saved)
    ensures r.err.None? <==> !f.NoHome? && writes
    ensures r.err.None? ==> r.file == Stored(entries)
    ensures r.err.Some? ==> r.file == f
  {
    if f.NoHome? then Saved(f, Some(HomeDirError))
    else if !writes then Saved(f, Some(WriteError))
    else Saved(Stored(entries), None)
  }

  /** The list AddEntry saves: the new entry first, then the prior ones, oldest dropped beyond the cap. */
  function Push(e: HistoryEntry, entries: seq<HistoryEntry>): (r: seq<HistoryEntry>)
    ensures |r| == Min(|entries| + 1, MaxHistorySize)
    ensures r[0] == e
    ensures r[1..] == entries[..|r| - 1]
  {
    var all := [e] + entries;
    assert all[1..] == entries;
    if |all| > MaxHistorySize then all[..MaxHistorySize] else all
  }

  /** AddEntry: a history that cannot be loaded counts as empty. */
  function AddEntry(f: HistoryFile, now: int, command: string, ruleName: string, writes: bool): (r: Saved)
    ensures r.err.None? <==> !f.NoHome? && writes
    ensures r.err.Some? ==> r.file == f
    ensures r.err.None? ==>
      && r.file.Stored? && 0 < |r.file.entries| <= MaxHistorySize
      && r.file.entries[0] == HistoryEntry(now, command, ruleName)
  {
    var prior := match LoadHistory(f) case Ok(es) => es case Err(_) => [];
    Save(f, Push(HistoryEntry(now, command, ruleName), prior), writes)
  }

  /** ClearHistory. */
  function ClearHistory(f: HistoryFile, writes: bool): (r: Saved)
    ensures r.err.None? <==> !f.NoHome? && writes
    ensures r.err.None? ==> r.file == Stored([])
    ensures r.err.Some? ==> r.file == f
  {
    Save(f, [], writes)
  }

  /**
   * A successful AddEntry leaves a history that loads with the new entry,
   * holding the given command and rule name, first, followed by the previously
   * loadable entries in their prior order, within the size bound.
   */
  lemma AddThenLoad(f: HistoryFile, now: int, command: string, ruleName: string, writes: bool)
    requires AddEntry(f, now, command, ruleName, writes).err.None?
    ensures var prior := if LoadHistory(f).Ok? then LoadHistory(f).value else [];
      var r := LoadHistory(AddEntry(f, now, command, ruleName, writes).file);
      && r.Ok?
      && |r.value| == Min(|prior| + 1, MaxHistorySize)
      && r.value[0] == HistoryEntry(now, command, ruleName)
      && r.value[1..] == prior[..|r.value| - 1]
  {
  }

  /** An unreadable history is replaced by one holding only the new entry. */
  lemma AddToUnreadable(now: int, command: string, ruleName: string)
    ensures AddEntry(Unreadable, now, command, ruleName, true) ==
      Saved(Stored([HistoryEntry(now, command, ruleName)]), None)
  {
    assert Push(HistoryEntry(now, command, ruleName), []) == [HistoryEntry(now, command, ruleName)];
  }

  /** A failed write leaves the history file as it was. */
  lemma FailedAddChangesNothing(f: HistoryFile, now: int, command: string, ruleName: string)
    ensures AddEntry(f, now, command, ruleName, false) == Saved(f, Some(if f.NoHome? then HomeDirError else WriteError))
  {
  }

  /** A successful ClearHistory leaves an empty history. */
  lemma ClearThenLoad(f: HistoryFile, writes: bool)
    requires ClearHistory(f, writes).err.None?
    ensures LoadHistory(ClearHistory(f, writes).file) == Ok([])
  {
  }

  /** The history after adding the entries of `es` in order, every write succeeding. */
  function AddAll(f: HistoryFile, es: seq<HistoryEntry>): HistoryFile
    decreases |es|
  {
    if es == [] then f
    else
      var e := es[|es| - 1];
      AddEntry(AddAll(f, es[..|es| - 1]), e.timestamp, e.command, e.ruleName, true).file
  }

  /** `h` is the newest `MaxHistorySize` entries of `es` (oldest first), newest first. */
  predicate NewestFirst(h: seq<HistoryEntry>, es: seq<HistoryEntry>) {
    && |h| == Min(|es|, MaxHistorySize)
    && forall i :: 0 <= i < |h| ==> h[i] == es[|es| - 1 - i]
  }

  /**
   * Starting from no history, adding entries one by one keeps exactly the
   * newest `MaxHistorySize` of them, newest first.
   */
  lemma {:induction false} AddAllKeepsNewest(es: seq<HistoryEntry>)
    ensures LoadHistory(AddAll(Missing, es)).Ok?
    ensures NewestFirst(LoadHistory(AddAll(Missing, es)).value, es)
    decreases |es|
  {
    if es != [] {
      var init := es[..|es| - 1];
      AddAllKeepsNewest(init);
      AddAllLast(es);
      PushKeepsNewest(es, LoadHistory(AddAll(Missing, init)).value);
    }
  }

  /** Adding the entries of `es` ends with adding the last one onto the history of the others. */
  lemma AddAllLast(es: seq<HistoryEntry>)
    requires es != [] && LoadHistory(AddAll(Missing, es[..|es| - 1])).Ok?
    ensures AddAll(Missing, es) == Stored(Push(es[|es| - 1], LoadHistory(AddAll(Missing, es[..|es| - 1])).value))
  {
    var e := es[|es| - 1];
    assert HistoryEntry(e.timestamp, e.command, e.ruleName) == e;
  }

  /** Pushing the newest entry onto the newest ones before it keeps the newest ones, newest first. */
  lemma PushKeepsNewest(es: seq<HistoryEntry>, prior: seq<HistoryEntry>)
    requires es != [] && NewestFirst(prior, es[..|es| - 1])
    ensures NewestFirst(Push(es[|es| - 1], prior), es)
  {
    var h := Push(es[|es| - 1], prior);
    forall i | 0 <= i < |h|
      ensures h[i] == es[|es| - 1 - i]
    {
      if i > 0 {
        assert h[i] == h[1..][i - 1] == prior[i - 1] == es[..|es| - 1][|es| - 1 - i];
      }
    }
  }
}
