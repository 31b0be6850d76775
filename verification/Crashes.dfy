/** A daemon that dies without `persist`: the next one starts from what the last completed cycle left. */
module Crashes {
  import opened Collections
  import opened Batching
  import opened Extraction
  import opened ColdStart
  import opened Compiler
  import opened CompilerRuns
  import opened Restarts

  function Loaded(s: State): Cache { if s.cacheJson.Some? then s.cacheJson.value else EmptyCache() }

  /** The cache after a crash at any moment of any run and a restart on whatever the vault has become. It was saved by
      the last completed cycle, or found when the daemon started; nothing that is not an observed file survives; a file
      that extracts is up to date exactly when the saved entry is not wrongly trusted; and only files whose saved mtime
      is not theirs are extracted again. */
  lemma {:induction false} CrashAndRestart(e: Settings, r: Run, ops: seq<Op>, extract: Extractor, vault: Vault,
                                           walk: seq<Path>, x: Path)
    requires JustStarted(e, r) && (forall i :: 0 <= i < |ops| ==> Legal(ops[i])) && Walks(walk, vault)
    ensures var r' := AfterAll(e, r, ops);
      var saved := if r'.past.saved.Some? then r'.past.saved.value else EmptyCache();
      var restarted := Reconciled(extract, vault, Loaded(r'.state), walk, e.excluded);
      && Loaded(r'.state) == saved && Provenance(saved)
      && (e.excluded(x) || x !in vault ==> x !in restarted.entries.vals && x !in restarted.mtimes)
      && (!e.excluded(x) && ExtractionOf(extract, vault, x).Some? ==>
            (Get(restarted, x) == ExtractionOf(extract, vault, x) <==> TrustedAt(extract, vault, saved, x)))
      && (x in Stale(vault, Loaded(r'.state), walk, e.excluded) <==>
            x in vault && !e.excluded(x) && Lookup(saved.mtimes, x) != Some(vault[x].mtime))
  {
    FilesAreOfTheLastCycle(e, r, ops);
    ReconciledAt(extract, vault, Loaded(AfterAll(e, r, ops).state), walk, e.excluded, x);
    if !e.excluded(x) && ExtractionOf(extract, vault, x).Some? {
      RestartRecovers(extract, e.excluded, vault, Loaded(AfterAll(e, r, ops).state), walk, x);
    }
  }

  /** So where the saved entry is the extraction of the content that its mtime names, the crash costs nothing but the
      extraction of what has changed since. */
  lemma {:induction false} CrashLosesNoStampedEntry(e: Settings, r: Run, ops: seq<Op>, extract: Extractor,
                                                    contents: Contents, vault: Vault, walk: seq<Path>, x: Path)
    requires JustStarted(e, r) && (forall i :: 0 <= i < |ops| ==> Legal(ops[i])) && Walks(walk, vault)
    requires StampedAt(extract, contents, Loaded(AfterAll(e, r, ops).state), x) && NamedAt(contents, vault, x)
    requires !e.excluded(x) && ExtractionOf(extract, vault, x).Some?
    ensures var restarted := Reconciled(extract, vault, Loaded(AfterAll(e, r, ops).state), walk, e.excluded);
      Get(restarted, x) == ExtractionOf(extract, vault, x) && StampedAt(extract, contents, restarted, x)
  {
    CrashAndRestart(e, r, ops, extract, vault, walk, x);
    StampedIsTrusted(extract, contents, vault, Loaded(AfterAll(e, r, ops).state), x);
    ColdStartKeepsStamps(extract, e.excluded, contents, vault, Loaded(AfterAll(e, r, ops).state), walk, x);
  }
}
