/** The cache of remote URLs, and what its entries mean while the configuration is edited.

    Every repository has a timeline: the versions of its two configuration files at each moment. A version
    stands for a file's length and modification time, which never come back once they have changed; only
    the absence of the optional worktree file may come back. Each file is read at a moment of its own, and
    between any two steps of a call the timelines may grow and other calls may change the cache.

    The URLs are a function of the versions `git config` saw, so an answer is given by those versions.
 */
module RemoteUrlCache {
  import opened Prelude

  type Path = string

  const MAX_ENTRIES := 512
  const TTL_MILLIS := 30000

  /** The version of the common file, and of the worktree file if it exists. */
  datatype Config = Config(common: nat, worktree: Option<nat>)

  /** Two files read at two moments of the timeline. */
  datatype Reading = Reading(value: Config, commonAt: nat, worktreeAt: nat)

  /** `Parsed`: the URLs in the files that were read. `NoUrls`: git ran and reported failure. */
  datatype Answer = Parsed(config: Config) | NoUrls

  datatype Entry = Entry(fingerprint: Reading, seen: Reading, answer: Answer, cachedAt: nat)

  /** Git ran for a repository, saw its files and gave an answer. */
  datatype GitRun = GitRun(path: Path, seen: Reading, answer: Answer)

  datatype Timeline = Timeline(moments: seq<Config>)
  {
    function Last(): nat
      requires moments != []
    {
      |moments| - 1
    }
  }

  type World = map<Path, Timeline>

  /** What is the same at both ends of a stretch did not change within it. */
  predicate Steady(h: seq<Config>, i: nat, k: nat)
    requires i <= k < |h|
  {
    && (h[i].common == h[k].common ==> forall j | i <= j <= k :: h[j].common == h[i].common)
    && (h[i].worktree == h[k].worktree && h[i].worktree.Some? ==> forall j | i <= j <= k :: h[j].worktree == h[i].worktree)
  }

  predicate NeverRepeats(h: seq<Config>) {
    forall i, k | 0 <= i <= k < |h| :: Steady(h, i, k)
  }

  predicate ReadingOk(r: Reading, h: seq<Config>) {
    && r.commonAt < |h| && h[r.commonAt].common == r.value.common
    && r.worktreeAt < |h| && h[r.worktreeAt].worktree == r.value.worktree
  }

  /** The fingerprint was taken before the files were read: that is all the cache relies on. */
  predicate EntryOk(e: Entry, h: seq<Config>) {
    && ReadingOk(e.fingerprint, h) && ReadingOk(e.seen, h)
    && e.fingerprint.commonAt <= e.fingerprint.worktreeAt
    && e.fingerprint.worktreeAt <= e.seen.commonAt && e.fingerprint.worktreeAt <= e.seen.worktreeAt
    && (e.answer.Parsed? ==> e.answer.config == e.seen.value)
  }

  predicate WorldOk(w: World) {
    forall p | p in w :: w[p].moments != [] && NeverRepeats(w[p].moments)
  }

  predicate CacheOk(cache: map<Path, Entry>, w: World) {
    && |cache| <= MAX_ENTRIES
    && forall p | p in cache :: p in w && EntryOk(cache[p], w[p].moments)
  }

  /** Every entry holds what git gave for its path. */
  predicate AllGiven(cache: map<Path, Entry>, runs: seq<GitRun>) {
    forall p | p in cache :: GitRun(p, cache[p].seen, cache[p].answer) in runs
  }

  predicate Grown(w: World, w': World) {
    forall p | p in w :: p in w' && w[p].moments <= w'[p].moments
  }

  /** The entry of a path is as before, or gone. */
  predicate NoNewEntry(p: Path, cache: map<Path, Entry>, cache': map<Path, Entry>) {
    p in cache' ==> p in cache && cache'[p] == cache[p]
  }

  // ---------------------------------------------------------------- what a hit means

  /** A value of each file that was current at some moment since `from`. */
  ghost predicate CommonSince(v: nat, h: seq<Config>, from: nat) {
    exists i | from <= i < |h| :: h[i].common == v
  }

  ghost predicate WorktreeSince(v: Option<nat>, h: seq<Config>, from: nat) {
    exists i | from <= i < |h| :: h[i].worktree == v
  }

  /** A hit, whatever was edited and whoever filled the entry: the common file had the cached version at
      some moment of the lookup, and so had the worktree file if the fingerprint names one. */
  lemma HitIsOfThisCall(e: Entry, f: Reading, h: seq<Config>)
    requires NeverRepeats(h) && EntryOk(e, h) && ReadingOk(f, h) && f.commonAt <= f.worktreeAt
    requires e.fingerprint.value == f.value
    ensures CommonSince(e.seen.value.common, h, f.commonAt)
    ensures f.value.worktree.Some? ==> WorktreeSince(e.seen.value.worktree, h, f.commonAt)
  {
    assert e.fingerprint.commonAt <= f.commonAt ==> Steady(h, e.fingerprint.commonAt, f.commonAt);
    assert e.fingerprint.worktreeAt <= f.worktreeAt ==> Steady(h, e.fingerprint.worktreeAt, f.worktreeAt);
    if e.seen.commonAt <= f.commonAt {
      assert h[f.commonAt].common == h[e.seen.commonAt].common;
    } else {
      assert h[e.seen.commonAt].common == e.seen.value.common;
    }
    if f.value.worktree.Some? {
      if e.seen.worktreeAt <= f.worktreeAt {
        assert h[f.worktreeAt].worktree == h[e.seen.worktreeAt].worktree;
      } else {
        assert h[e.seen.worktreeAt].worktree == e.seen.value.worktree;
      }
    }
  }

  /** Readings that were taken one after the other and show the same versions. */
  ghost predicate SameAgain(fp: Reading, f: Reading, h: seq<Config>) {
    && ReadingOk(fp, h) && ReadingOk(f, h) && fp.value == f.value
    && fp.commonAt <= fp.worktreeAt <= f.commonAt <= f.worktreeAt
  }

  /** There is a worktree file, or there was none from one reading to the other. */
  ghost predicate NoVisitor(fp: Reading, f: Reading, h: seq<Config>) {
    f.value.worktree.Some? || forall j | fp.worktreeAt <= j <= f.commonAt && j < |h| :: h[j].worktree.None?
  }

  /** An entry a call may have left behind that took the fingerprint `fp` and was done before `f`. */
  ghost predicate LeftBefore(e: Entry, fp: Reading, f: Reading, h: seq<Config>) {
    EntryOk(e, h) && e.fingerprint == fp && e.seen.commonAt <= f.commonAt && e.seen.worktreeAt <= f.commonAt
  }

  /** A hit on an entry that was filled before the lookup began is exactly what the lookup found on disk. */
  lemma HitIsExact(e: Entry, f: Reading, h: seq<Config>)
    requires NeverRepeats(h) && SameAgain(e.fingerprint, f, h) && LeftBefore(e, e.fingerprint, f, h)
    requires NoVisitor(e.fingerprint, f, h)
    ensures e.seen.value == f.value
  {
    assert Steady(h, e.fingerprint.commonAt, f.commonAt);
    assert Steady(h, e.fingerprint.worktreeAt, f.worktreeAt);
    assert h[e.fingerprint.commonAt].common == h[e.seen.commonAt].common;
    if f.value.worktree.Some? {
      assert h[e.fingerprint.worktreeAt].worktree == h[e.seen.worktreeAt].worktree;
    }
  }

  /** When the fingerprint of a lookup matches, every entry that may have been left behind under it is
      exactly what the lookup found on disk, if and only if the fingerprint names a worktree file or no
      worktree file came and went between the two fingerprints. */
  lemma HitIsExactIff(fp: Reading, f: Reading, h: seq<Config>)
    requires NeverRepeats(h) && SameAgain(fp, f, h)
    ensures (forall e: Entry :: LeftBefore(e, fp, f, h) ==> e.seen.value == f.value) <==> NoVisitor(fp, f, h)
  {
    if NoVisitor(fp, f, h) {
      forall e: Entry | LeftBefore(e, fp, f, h) ensures e.seen.value == f.value {
        HitIsExact(e, f, h);
      }
    } else {
      var j :| fp.worktreeAt <= j <= f.commonAt && h[j].worktree.Some?;
      var e := Entry(fp, Reading(h[j], j, j), NoUrls, 0);
      assert LeftBefore(e, fp, f, h) && e.seen.value != f.value;
    }
  }

  /** The case the condition shuts out can happen: a worktree file is created just before git reads it
      and removed again. Until the entry expires, lookups answer with a file that is gone. */
  lemma AbsenceComesBack() returns (e: Entry, f: Reading, h: seq<Config>)
    ensures NeverRepeats(h) && EntryOk(e, h) && ReadingOk(f, h) && f.commonAt <= f.worktreeAt
    ensures e.fingerprint.value == f.value && e.seen.commonAt <= f.commonAt && e.seen.worktreeAt <= f.commonAt
    ensures !WorktreeSince(e.seen.value.worktree, h, f.commonAt)
  {
    h := [Config(1, None), Config(1, Some(7)), Config(1, None)];
    e := Entry(Reading(h[0], 0, 0), Reading(h[1], 1, 1), Parsed(h[1]), 0);
    f := Reading(h[2], 2, 2);
  }

  /** Were the fingerprint taken after the files are read, even two files that never disappear would not
      save the cache: an edit between the two makes an entry that is wrong from the start. */
  lemma ReadingFirstWouldBeWrong() returns (e: Entry, f: Reading, h: seq<Config>)
    ensures NeverRepeats(h) && ReadingOk(e.fingerprint, h) && ReadingOk(e.seen, h) && ReadingOk(f, h)
    ensures e.seen.commonAt < e.fingerprint.commonAt <= f.commonAt && e.fingerprint.value == f.value
    ensures !CommonSince(e.seen.value.common, h, f.commonAt)
  {
    h := [Config(1, Some(7)), Config(2, Some(7))];
    e := Entry(Reading(h[1], 1, 1), Reading(h[0], 0, 0), Parsed(h[0]), 0);
    f := Reading(h[1], 1, 1);
  }

  /** What every answer is worth, whatever happened during the call that began at moment `from`. */
  ghost predicate AnswerOfThisCall(a: Answer, f: Option<Reading>, hit: bool, h: seq<Config>, from: nat) {
    a.Parsed? ==>
      && CommonSince(a.config.common, h, from)
      && ((hit && f.Some? && f.value.value.worktree.None?) || WorktreeSince(a.config.worktree, h, from))
  }

  lemma HitAnswer(path: Path, cache: map<Path, Entry>, w: World, f: Reading, from: nat)
    requires WorldOk(w) && CacheOk(cache, w) && path in cache && path in w
    requires ReadingOk(f, w[path].moments) && from <= f.commonAt <= f.worktreeAt
    requires cache[path].fingerprint.value == f.value
    ensures AnswerOfThisCall(cache[path].answer, Some(f), true, w[path].moments, from)
  {
    var h := w[path].moments;
    HitIsOfThisCall(cache[path], f, h);
    if cache[path].answer.Parsed? {
      var i :| f.commonAt <= i < |h| && h[i].common == cache[path].seen.value.common;
      if f.value.worktree.Some? {
        var k :| f.commonAt <= k < |h| && h[k].worktree == cache[path].seen.value.worktree;
      }
    }
  }

  /** The entry that is found was there when the call began, so its files were read before. */
  lemma SoleHit(path: Path, cache0: map<Path, Entry>, w0: World, cache: map<Path, Entry>, w: World, f: Option<Reading>, sole: bool)
    requires WorldOk(w0) && WorldOk(w) && CacheOk(cache0, w0) && CacheOk(cache, w) && path in w0 && Grown(w0, w)
    requires sole ==> NoNewEntry(path, cache0, cache)
    requires f.Some? ==> ReadingOk(f.value, w[path].moments) && w0[path].Last() <= f.value.commonAt <= f.value.worktreeAt
    ensures sole && f.Some? && path in cache && cache[path].fingerprint.value == f.value.value ==>
      && path in cache0 && cache[path] == cache0[path]
      && SameAgain(cache0[path].fingerprint, f.value, w[path].moments)
      && (cache[path].answer.Parsed? && NoVisitor(cache0[path].fingerprint, f.value, w[path].moments) ==> cache[path].answer.config == f.value.value)
  {
    if sole && f.Some? && path in cache && cache[path].fingerprint.value == f.value.value {
      assert EntryOk(cache0[path], w0[path].moments) && EntryOk(cache[path], w[path].moments);
      if NoVisitor(cache[path].fingerprint, f.value, w[path].moments) { HitIsExact(cache[path], f.value, w[path].moments); }
    }
  }

  lemma MissAnswer(a: Answer, f: Option<Reading>, seen: Reading, h: seq<Config>, h': seq<Config>, from: nat)
    requires ReadingOk(seen, h) && h <= h' && from <= seen.commonAt && from <= seen.worktreeAt
    requires a.Parsed? ==> a.config == seen.value
    ensures AnswerOfThisCall(a, f, false, h', from)
  {
    assert h'[seen.commonAt] == h[seen.commonAt] && h'[seen.worktreeAt] == h[seen.worktreeAt];
  }

  lemma StillRead(r: Option<Reading>, h: seq<Config>, h': seq<Config>)
    requires h <= h' && (r.Some? ==> ReadingOk(r.value, h))
    ensures r.Some? ==> ReadingOk(r.value, h')
  {
  }

  lemma NewEntryOk(e: Entry, h0: seq<Config>, h1: seq<Config>, h: seq<Config>)
    requires h0 != [] && h0 <= h1 <= h && ReadingOk(e.fingerprint, h0) && ReadingOk(e.seen, h1)
    requires e.fingerprint.commonAt <= e.fingerprint.worktreeAt
    requires |h0| - 1 <= e.seen.commonAt && |h0| - 1 <= e.seen.worktreeAt
    requires e.answer.Parsed? ==> e.answer.config == e.seen.value
    ensures EntryOk(e, h)
  {
  }

  // ---------------------------------------------------------------- the program

  lemma CacheIsBounded(cache: map<Path, Entry>, w: World)
    requires CacheOk(cache, w)
    ensures |cache| <= MAX_ENTRIES
  {
  }

  lemma NothingCached(w: World, runs: seq<GitRun>)
    ensures CacheOk(map[], w) && AllGiven(map[], runs)
  {
  }

  lemma EntryAdded(cache: map<Path, Entry>, path: Path, e: Entry, w: World, runs: seq<GitRun>)
    requires CacheOk(cache, w) && AllGiven(cache, runs) && (|cache| < MAX_ENTRIES || path in cache)
    requires path in w && EntryOk(e, w[path].moments) && GitRun(path, e.seen, e.answer) in runs
    ensures CacheOk(cache[path := e], w) && AllGiven(cache[path := e], runs)
  {
    hide EntryOk;
    if path in cache {
      assert cache[path := e].Keys == cache.Keys;
    } else {
      assert cache[path := e].Keys == cache.Keys + {path};
    }
  }

  /** Git gave this answer since `from`. */
  ghost predicate GaveSince(runs: seq<GitRun>, from: nat, run: GitRun) {
    exists i | from <= i < |runs| :: runs[i] == run
  }

  lemma StillGiven(runs: seq<GitRun>, more: seq<GitRun>, from: nat, run: GitRun)
    requires runs <= more && from < |runs| && runs[|runs|-1] == run
    ensures GaveSince(more, from, run)
  {
    assert more[|runs|-1] == run;
  }

  lemma GivenLater(runs: seq<GitRun>, more: seq<GitRun>, from: nat, run: GitRun)
    requires runs <= more && GaveSince(runs, from, run)
    ensures GaveSince(more, from, run)
  {
    var i :| from <= i < |runs| && runs[i] == run;
    assert more[i] == run;
  }

  lemma StillAllGiven(cache: map<Path, Entry>, runs: seq<GitRun>, more: seq<GitRun>)
    requires AllGiven(cache, runs) && runs <= more
    ensures AllGiven(cache, more)
  {
  }

  lemma GrownTwice(a: World, b: World, c: World)
    requires Grown(a, b) && Grown(b, c)
    ensures Grown(a, c)
  {
  }

  lemma NoNewEntryTwice(p: Path, a: map<Path, Entry>, b: map<Path, Entry>, c: map<Path, Entry>, sole: bool)
    requires sole ==> NoNewEntry(p, a, b) && NoNewEntry(p, b, c)
    ensures sole ==> NoNewEntry(p, a, c)
  {
  }

  class RemoteUrls {
    var cache: map<Path, Entry>
    var world: World
    var clock: nat
    /** Every time git ran, and how often it could not run or a file could not be inspected. */
    var runs: seq<GitRun>
    ghost var gitFailures: nat
    ghost var statFailures: nat
    const alone: bool
    const sole: bool

    /** `alone`: nothing else happens during a call. `sole`: calls for one path do not overlap, as when
        concurrent inspections of a repository share one result. */
    constructor (world: World, alone: bool, sole: bool)
      requires WorldOk(world) && (alone ==> sole)
      ensures Ok() && this.world == world && this.alone == alone && this.sole == sole && cache == map[] && runs == []
    {
      this.world, this.alone, this.sole := world, alone, sole;
      cache, clock, runs, gitFailures, statFailures := map[], 0, [], 0, 0;
    }

    ghost predicate Ok()
      reads this
    {
      WorldOk(world) && CacheOk(cache, world) && AllGiven(cache, runs) && (alone ==> sole)
    }

    /** Edits, other calls and the passing of time. */
    method Interfere(path: Path)
      requires Ok() && path in world
      modifies this`cache, this`world, this`clock, this`runs
      ensures Ok() && path in world && Grown(old(world), world) && clock >= old(clock) && old(runs) <= runs
      ensures world[path].moments != [] && old(world[path].moments) <= world[path].moments
      ensures alone ==> cache == old(cache) && world == old(world) && clock == old(clock) && runs == old(runs)
      ensures sole ==> NoNewEntry(path, old(cache), cache)
    {
      var w: World := *;
      var c: map<Path, Entry> := *;
      var t: nat, g: seq<GitRun> := *, *;
      if !alone && WorldOk(w) && Grown(world, w) && CacheOk(c, w) && runs <= g && AllGiven(c, g) && (sole ==> NoNewEntry(path, cache, c)) {
        world, cache, runs := w, c, g;
        if t > 0 { clock := clock + t; }
      }
    }

    method InspectionFails() returns (fails: bool)
      modifies this`statFailures
      ensures statFailures == old(statFailures) + if fails then 1 else 0
    {
      fails := *;
      if fails { statFailures := statFailures + 1; }
    }

    /** Runs `git config` on files that were read at the moments of `seen`. None if git could not be run. */
    method RunGit(path: Path, seen: Reading) returns (r: Option<Answer>)
      modifies this`runs, this`gitFailures
      ensures r.None? ==> gitFailures == old(gitFailures) + 1 && runs == old(runs)
      ensures r.Some? ==> gitFailures == old(gitFailures) && runs == old(runs) + [GitRun(path, seen, r.value)]
      ensures r.Some? && r.value.Parsed? ==> r.value.config == seen.value
    {
      var runsAtAll: bool, succeeds: bool := *, *;
      if !runsAtAll {
        gitFailures := gitFailures + 1;
        return None;
      }
      r := Some(if succeeds then Parsed(seen.value) else NoUrls);
      runs := runs + [GitRun(path, seen, r.value)];
    }

    /** The common file's version, then the worktree file's. None exactly if either cannot be inspected. */
    method ReadFingerprint(path: Path) returns (f: Option<Reading>)
      requires Ok() && path in world
      modifies this`cache, this`world, this`clock, this`runs, this`statFailures
      ensures Ok() && path in world && Grown(old(world), world) && clock >= old(clock) && old(runs) <= runs
      ensures f.None? <==> statFailures > old(statFailures)
      ensures world[path].moments != [] && old(world[path].moments) <= world[path].moments
      ensures alone ==> cache == old(cache) && world == old(world) && clock == old(clock) && runs == old(runs)
      ensures sole ==> NoNewEntry(path, old(cache), cache)
      ensures f.Some? ==>
        && ReadingOk(f.value, world[path].moments)
        && old(world[path].Last()) <= f.value.commonAt <= f.value.worktreeAt == world[path].Last()
    {
      hide Grown, WorldOk, CacheOk, AllGiven, NoNewEntry;
      Interfere(path);
      label first:
      var h := world[path].moments;
      var commonAt := |h| - 1;
      var common := h[commonAt].common;
      var unreadable := InspectionFails();
      if unreadable { return None; }
      Interfere(path);
      GrownTwice(old(world), old@first(world), world);
      NoNewEntryTwice(path, old(cache), old@first(cache), cache, sole);
      h := world[path].moments;
      unreadable := InspectionFails();
      if unreadable { return None; }
      return Some(Reading(Config(common, h[|h|-1].worktree), commonAt, |h| - 1));
    }

    /** The two files, read in either order, each at a moment of its own. */
    method ReadFiles(path: Path) returns (seen: Reading)
      requires Ok() && path in world
      modifies this`cache, this`world, this`clock, this`runs
      ensures Ok() && path in world && Grown(old(world), world) && clock >= old(clock) && old(runs) <= runs
      ensures world[path].moments != [] && old(world[path].moments) <= world[path].moments
      ensures alone ==> cache == old(cache) && world == old(world) && clock == old(clock) && runs == old(runs)
      ensures sole ==> NoNewEntry(path, old(cache), cache)
      ensures ReadingOk(seen, world[path].moments)
      ensures old(world[path].Last()) <= seen.commonAt && old(world[path].Last()) <= seen.worktreeAt
    {
      hide Grown, WorldOk, CacheOk, AllGiven, NoNewEntry;
      Interfere(path);
      var first := world[path].moments;
      label first:
      Interfere(path);
      var second := world[path].moments;
      GrownTwice(old(world), old@first(world), world);
      NoNewEntryTwice(path, old(cache), old@first(cache), cache, sole);
      var commonFirst: bool := *;
      seen := if commonFirst
        then Reading(Config(first[|first|-1].common, second[|second|-1].worktree), |first| - 1, |second| - 1)
        else Reading(Config(second[|second|-1].common, first[|first|-1].worktree), |second| - 1, |first| - 1);
    }

    /** Runs `git config`, which reads the two files in either order. None exactly if git could not be run. */
    method ReadUncached(path: Path) returns (r: Option<Answer>, seen: Reading)
      requires Ok() && path in world
      modifies this`cache, this`world, this`clock, this`runs, this`gitFailures
      ensures Ok() && path in world && Grown(old(world), world) && clock >= old(clock) && old(runs) <= runs
      ensures world[path].moments != [] && old(world[path].moments) <= world[path].moments
      ensures alone ==> cache == old(cache) && world == old(world) && clock == old(clock)
      ensures alone ==> |runs| == |old(runs)| + if r.Some? then 1 else 0
      ensures sole ==> NoNewEntry(path, old(cache), cache)
      ensures ReadingOk(seen, world[path].moments)
      ensures old(world[path].Last()) <= seen.commonAt && old(world[path].Last()) <= seen.worktreeAt
      ensures r.Some? && r.value.Parsed? ==> r.value.config == seen.value
      ensures r.Some? ==> GaveSince(runs, |old(runs)|, GitRun(path, seen, r.value))
      ensures r.None? <==> gitFailures > old(gitFailures)
    {
      hide Grown, WorldOk, CacheOk, AllGiven, NoNewEntry, ReadingOk, GaveSince;
      seen := ReadFiles(path);
      ghost var earlier := runs;
      r := RunGit(path, seen);
      ghost var given := runs;
      StillAllGiven(cache, earlier, runs);
      label ran:
      Interfere(path);
      GrownTwice(old(world), old@ran(world), world);
      NoNewEntryTwice(path, old(cache), old@ran(cache), cache, sole);
      StillRead(Some(seen), old@ran(world[path].moments), world[path].moments);
      if r.Some? { StillGiven(given, runs, |old(runs)|, GitRun(path, seen, r.value)); }
    }

    /** The entry of a path, if it has the fingerprint and is younger than the time to live. */
    method Lookup(path: Path, f: Option<Reading>) returns (e: Option<Entry>)
      ensures e.Some? <==> path in cache && f.Some? && cache[path].fingerprint.value == f.value.value
                           && clock - cache[path].cachedAt < TTL_MILLIS
      ensures e.Some? ==> e.value == cache[path]
    {
      if path in cache && f.Some? && cache[path].fingerprint.value == f.value.value
         && clock - cache[path].cachedAt < TTL_MILLIS
      {
        return Some(cache[path]);
      }
      return None;
    }

    /** Makes room by forgetting everything when the cache is full. */
    method Insert(path: Path, e: Entry)
      requires Ok() && path in world && EntryOk(e, world[path].moments) && GitRun(path, e.seen, e.answer) in runs
      modifies this`cache
      ensures Ok() && path in cache && cache[path] == e
      ensures cache == (if |old(cache)| == MAX_ENTRIES && path !in old(cache) then map[path := e] else old(cache)[path := e])
    {
      hide WorldOk, CacheOk, AllGiven, EntryOk;
      NothingCached(world, runs);
      if |cache| >= MAX_ENTRIES && path !in cache {
        assert |cache| == MAX_ENTRIES by { CacheIsBounded(cache, world); }
        cache := map[];
      }
      EntryAdded(cache, path, e, world, runs);
      cache := cache[path := e];
    }

    /** The part of a call that found nothing: read the files and remember what they said. */
    method ReadAndCache(path: Path, fingerprint: Option<Reading>, ghost start: nat) returns (r: Option<Answer>)
      requires Ok() && path in world && start <= world[path].Last()
      requires fingerprint.Some? ==> ReadingOk(fingerprint.value, world[path].moments)
                                     && fingerprint.value.commonAt <= fingerprint.value.worktreeAt
      modifies this`cache, this`world, this`clock, this`runs, this`gitFailures
      ensures Ok() && path in world && Grown(old(world), world) && old(runs) <= runs
      ensures world[path].moments != [] && old(world[path].moments) <= world[path].moments
      ensures r.Some? ==> AnswerOfThisCall(r.value, fingerprint, false, world[path].moments, start)
      ensures r.Some? ==> Gave(runs, |old(runs)|, path, r.value)
      ensures r.None? <==> gitFailures > old(gitFailures)
      ensures r.Some? && fingerprint.Some? ==> Remembered(cache, path, fingerprint.value, r.value, clock)
      ensures alone && (fingerprint.None? || r.None?) ==> cache == old(cache)
      ensures alone ==> world == old(world) && clock == old(clock)
      ensures alone && r.Some? && r.value.Parsed? ==> r.value.config == world[path].moments[world[path].Last()]
    {
      hide Grown, WorldOk, CacheOk, AllGiven, NoNewEntry, EntryOk, NeverRepeats, AnswerOfThisCall, GaveSince, Gave;
      var seen;
      r, seen := ReadUncached(path);
      label read:
      if r.Some? {
        MissAnswer(r.value, fingerprint, seen, world[path].moments, world[path].moments, start);
        GaveBySeeing(runs, |old(runs)|, path, seen, r.value);
      }
      if r.None? || fingerprint.None? { return; }
      ghost var given := runs;
      Interfere(path);
      GrownTwice(old(world), old@read(world), world);
      MissAnswer(r.value, fingerprint, seen, old@read(world[path].moments), world[path].moments, start);
      GivenLater(given, runs, |old(runs)|, GitRun(path, seen, r.value));
      GaveBySeeing(runs, |old(runs)|, path, seen, r.value);
      GivenIsIn(runs, |old(runs)|, GitRun(path, seen, r.value));
      var entry := Entry(fingerprint.value, seen, r.value, clock);
      NewEntryOk(entry, old(world[path].moments), old@read(world[path].moments), world[path].moments);
      Insert(path, entry);
    }

    /** The fingerprint, and whatever happens before the cache is looked at. */
    method FingerprintFirst(path: Path) returns (f: Option<Reading>)
      requires Ok() && path in world
      modifies this`cache, this`world, this`clock, this`runs, this`statFailures
      ensures Ok() && path in world && Grown(old(world), world) && old(runs) <= runs
      ensures world[path].moments != [] && old(world[path].moments) <= world[path].moments
      ensures alone ==> cache == old(cache) && world == old(world) && clock == old(clock) && runs == old(runs)
      ensures sole ==> NoNewEntry(path, old(cache), cache)
      ensures f.None? <==> statFailures > old(statFailures)
      ensures f.Some? ==>
        && ReadingOk(f.value, world[path].moments)
        && old(world[path].Last()) <= f.value.commonAt <= f.value.worktreeAt
    {
      hide Grown, WorldOk, CacheOk, AllGiven, NoNewEntry, ReadingOk;
      f := ReadFingerprint(path);
      label fingerprinted:
      Interfere(path);
      GrownTwice(old(world), old@fingerprinted(world), world);
      NoNewEntryTwice(path, old(cache), old@fingerprinted(cache), cache, sole);
      StillRead(f, old@fingerprinted(world[path].moments), world[path].moments);
    }

    /** The part of a call after the fingerprint: what the cache holds, or else what git says. */
    method UseOrRead(path: Path, fingerprint: Option<Reading>, ghost start: nat) returns (r: Option<Answer>, ghost hit: bool)
      requires Ok() && path in world && start <= world[path].Last()
      requires fingerprint.Some? ==> ReadingOk(fingerprint.value, world[path].moments)
                                     && start <= fingerprint.value.commonAt <= fingerprint.value.worktreeAt
      modifies this`cache, this`world, this`clock, this`runs, this`gitFailures
      ensures Ok() && path in world && Grown(old(world), world) && old(runs) <= runs
      ensures world[path].moments != [] && old(world[path].moments) <= world[path].moments
      ensures fingerprint.Some? ==> ReadingOk(fingerprint.value, world[path].moments)
      ensures hit <==> fingerprint.Some? && Usable(old(cache), path, fingerprint.value.value, old(clock))
      ensures hit ==> r == Some(old(cache)[path].answer) && cache == old(cache) && world == old(world) && clock == old(clock)
      ensures r.None? <==> gitFailures > old(gitFailures)
      ensures r.Some? ==> Gave(runs, if hit then 0 else |old(runs)|, path, r.value)
      ensures r.Some? ==> AnswerOfThisCall(r.value, fingerprint, hit, world[path].moments, start)
      ensures !hit && r.Some? && fingerprint.Some? ==> Remembered(cache, path, fingerprint.value, r.value, clock)
      ensures alone && (fingerprint.None? || r.None? || hit) ==> cache == old(cache)
      ensures alone ==> world == old(world) && clock == old(clock)
      ensures alone && !hit && r.Some? && r.value.Parsed? ==> r.value.config == world[path].moments[world[path].Last()]
    {
      hide Grown, WorldOk, CacheOk, AllGiven, NoNewEntry, EntryOk, NeverRepeats, AnswerOfThisCall, Gave, ReadingOk, Remembered;
      var cached := Lookup(path, fingerprint);
      hit := cached.Some?;
      if cached.Some? {
        HitAnswer(path, cache, world, fingerprint.value, start);
        HitWasGiven(path, cache, runs);
        GrownSelf(world);
        return Some(cached.value.answer), hit;
      }
      r := ReadAndCache(path, fingerprint, start);
      StillRead(fingerprint, old(world[path].moments), world[path].moments);
    }

    /** The URLs of a repository, from the cache if the fingerprint still matches. */
    method ReadRemoteUrls(path: Path) returns (r: Option<Answer>, ghost f: Option<Reading>, ghost hit: bool)
      requires Ok() && path in world
      modifies this
      ensures Ok() && path in world && Grown(old(world), world)
      ensures f.Some? ==> ReadingOk(f.value, world[path].moments) && old(world[path].Last()) <= f.value.commonAt <= f.value.worktreeAt
      ensures f.None? <==> statFailures > old(statFailures)
      ensures hit ==> f.Some? && r.Some?
      ensures r.None? <==> gitFailures > old(gitFailures)
      ensures r.Some? ==> Gave(runs, if hit then 0 else |old(runs)|, path, r.value)
      ensures r.Some? ==> AnswerOfThisCall(r.value, f, hit, world[path].moments, old(world[path].Last()))
      ensures sole && hit ==>
        && path in old(cache) && r == Some(old(cache)[path].answer)
        && SameAgain(old(cache)[path].fingerprint, f.value, world[path].moments)
        && (r.value.Parsed? && NoVisitor(old(cache)[path].fingerprint, f.value, world[path].moments) ==> r.value.config == f.value.value)
      ensures !hit && r.Some? && f.Some? ==> Remembered(cache, path, f.value, r.value, clock)
      ensures alone ==> world == old(world) && clock == old(clock)
      ensures alone && (f.None? || r.None? || hit) ==> cache == old(cache)
      ensures alone && !hit && r.Some? && r.value.Parsed? ==> r.value.config == world[path].moments[world[path].Last()]
      ensures alone ==> (hit <==> f.Some? && Usable(old(cache), path, world[path].moments[world[path].Last()], clock))
      ensures alone && hit ==> r == Some(old(cache)[path].answer)
    {
      ghost var start, cache0, world0 := world[path].Last(), cache, world;
      hide Grown, WorldOk, CacheOk, AllGiven, NoNewEntry, EntryOk, NeverRepeats, AnswerOfThisCall, SameAgain, NoVisitor, Gave, ReadingOk,
        Remembered, Usable;
      var fingerprint := FingerprintFirst(path);
      f := fingerprint;
      AloneReads(alone, world[path].moments, f);
      label looked:
      SoleHit(path, cache0, world0, cache, world, fingerprint, sole);
      r, hit := UseOrRead(path, fingerprint, start);
      GrownTwice(world0, old@looked(world), world);
      GaveEarlier(runs, |old(runs)|, |old@looked(runs)|, path, r, hit);
    }
  }

  lemma GrownSelf(w: World)
    ensures Grown(w, w)
  {
  }

  lemma GaveEarlier(runs: seq<GitRun>, from: nat, later: nat, path: Path, answer: Option<Answer>, hit: bool)
    requires from <= later && (answer.Some? && !hit ==> Gave(runs, later, path, answer.value))
    ensures answer.Some? && !hit ==> Gave(runs, from, path, answer.value)
  {
  }

  /** Nothing happens, so what is read is the last moment. */
  lemma AloneReads(alone: bool, h: seq<Config>, f: Option<Reading>)
    requires h != [] && (alone && f.Some? ==> ReadingOk(f.value, h) && |h| - 1 <= f.value.commonAt <= f.value.worktreeAt)
    ensures alone && f.Some? ==> f.value.value == h[|h|-1]
  {
  }

  /** The entry of a path is this answer, taken with this fingerprint at this time. */
  predicate Remembered(cache: map<Path, Entry>, path: Path, f: Reading, answer: Answer, now: nat) {
    path in cache && cache[path].fingerprint == f && cache[path].answer == answer && cache[path].cachedAt == now
  }

  /** There is an entry for these versions that is young enough. */
  predicate Usable(cache: map<Path, Entry>, path: Path, value: Config, now: nat) {
    path in cache && cache[path].fingerprint.value == value && now - cache[path].cachedAt < TTL_MILLIS
  }

  /** Git gave this answer for the path since `from`. */
  ghost predicate Gave(runs: seq<GitRun>, from: nat, path: Path, answer: Answer) {
    exists i | from <= i < |runs| :: runs[i].path == path && runs[i].answer == answer
  }

  lemma GaveBySeeing(runs: seq<GitRun>, from: nat, path: Path, seen: Reading, answer: Answer)
    requires GaveSince(runs, from, GitRun(path, seen, answer))
    ensures Gave(runs, from, path, answer)
  {
    var i :| from <= i < |runs| && runs[i] == GitRun(path, seen, answer);
    assert runs[i].path == path && runs[i].answer == answer;
  }

  lemma GivenIsIn(runs: seq<GitRun>, from: nat, run: GitRun)
    requires GaveSince(runs, from, run)
    ensures run in runs
  {
  }

  lemma HitWasGiven(path: Path, cache: map<Path, Entry>, runs: seq<GitRun>)
    requires AllGiven(cache, runs) && path in cache
    ensures Gave(runs, 0, path, cache[path].answer)
  {
    var i :| 0 <= i < |runs| && runs[i] == GitRun(path, cache[path].seen, cache[path].answer);
    assert runs[i].path == path && runs[i].answer == cache[path].answer;
  }

  lemma RememberedIsUsable(cache: map<Path, Entry>, path: Path, f: Reading, answer: Answer, now: nat, pause: nat)
    requires Remembered(cache, path, f, answer, now)
    ensures path in cache && cache[path].answer == answer
    ensures Usable(cache, path, f.value, now + pause) <==> pause < TTL_MILLIS
  {
  }

  /** Two calls with nothing in between but time: the second is a hit and repeats the first answer, if the
      files could be inspected both times, the first call asked git, and thirty seconds have not passed. */
  method LookUpTwice(urls: RemoteUrls, path: Path, pause: nat)
    returns (first: Option<Answer>, second: Option<Answer>, ghost f: Option<Reading>, ghost g: Option<Reading>, ghost hit: bool, ghost hit': bool)
    requires urls.Ok() && path in urls.world && urls.alone
    modifies urls
    ensures first.Some? && f.Some? && g.Some? && !hit && pause < TTL_MILLIS ==> hit' && second == first
    ensures first.Some? && f.Some? && !hit && pause >= TTL_MILLIS ==> !hit'
  {
    hide Grown, WorldOk, CacheOk, AllGiven, AnswerOfThisCall, SameAgain, NoVisitor, Gave, ReadingOk, Remembered, Usable;
    first, f, hit := urls.ReadRemoteUrls(path);
    if first.Some? && f.Some? && !hit {
      AloneReads(true, urls.world[path].moments, f);
      RememberedIsUsable(urls.cache, path, f.value, first.value, urls.clock, pause);
    }
    urls.clock := urls.clock + pause;
    second, g, hit' := urls.ReadRemoteUrls(path);
  }
}
