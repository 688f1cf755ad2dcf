/**
 Reference counts for locked memory pages (cryptovec/src/platform/windows.rs):
 regions overlap on pages, the operating system locks a page once, and a lock
 that fails half way is rolled back.
 */
module PageLocks {
  import opened Common

  const MAX_LOCKED_PAGES: nat := 256

  /** The half-open range of page numbers a region touches. */
  datatype Region = Region(start: nat, end: nat)

  predicate Covers(r: Region, page: nat) {
    r.start <= page < r.end
  }

  /** `get_page_range`. */
  function PageRange(ptr: nat, len: nat, pageSize: nat): Region
    requires pageSize > 0
  {
    var start := ptr / pageSize;
    Region(start, if len == 0 then start else (ptr + len - 1) / pageSize + 1)
  }

  lemma DivideOrder(a: nat, b: nat, m: nat)
    requires m > 0
    ensures a / m <= b <==> a < (b + 1) * m
  {
    var q, r := a / m, a % m;
    assert a == q * m + r;
    if q <= b {
      assert q * m <= b * m;
      assert (b + 1) * m == b * m + m;
    } else {
      assert (b + 1) * m <= q * m;
    }
  }

  /** The address lies in the region and in the page. */
  predicate Shares(ptr: nat, len: nat, pageSize: nat, page: nat, a: nat) {
    ptr <= a < ptr + len && page * pageSize <= a < (page + 1) * pageSize
  }

  /** A page is in the range exactly when it shares an address with the region. */
  lemma PageRangeExact(ptr: nat, len: nat, pageSize: nat, page: nat)
    requires pageSize > 0
    ensures Covers(PageRange(ptr, len, pageSize), page) <==> exists a: nat :: Shares(ptr, len, pageSize, page, a)
  {
    DivideOrder(ptr, page, pageSize);
    if len > 0 {
      assert (page + 1) * pageSize == page * pageSize + pageSize;
      if page > 0 {
        DivideOrder(ptr + len - 1, page - 1, pageSize);
      }
      if Covers(PageRange(ptr, len, pageSize), page) {
        assert Shares(ptr, len, pageSize, page, if ptr >= page * pageSize then ptr else page * pageSize);
      }
    }
  }

  // ------------------------------------------------------- outstanding regions

  /** How many of the regions cover a page. */
  function Tally(regions: seq<Region>, page: nat): nat {
    if regions == [] then 0 else (if Covers(regions[0], page) then 1 else 0) + Tally(regions[1..], page)
  }

  function CountAt(counts: map<nat, nat>, page: nat): nat {
    if page in counts then counts[page] else 0
  }

  /** The table counts, for every page, the outstanding regions that cover it. */
  ghost predicate Counts(counts: map<nat, nat>, regions: seq<Region>) {
    forall page: nat :: CountAt(counts, page) == Tally(regions, page)
  }

  lemma {:induction false} TallyRemove(regions: seq<Region>, i: nat, page: nat)
    requires i < |regions|
    ensures Tally(regions[..i] + regions[i + 1..], page) + (if Covers(regions[i], page) then 1 else 0) == Tally(regions, page)
    decreases i
  {
    if i == 0 {
      assert regions[..0] + regions[1..] == regions[1..];
    } else {
      TallyRemove(regions[1..], i - 1, page);
      var rest := regions[..i] + regions[i + 1..];
      assert rest[1..] == regions[1..][..i - 1] + regions[1..][i..];
      assert rest[0] == regions[0];
    }
  }

  lemma TallyAdd(regions: seq<Region>, r: Region, page: nat)
    ensures Tally([r] + regions, page) == Tally(regions, page) + if Covers(r, page) then 1 else 0
  {
    assert ([r] + regions)[1..] == regions;
  }

  /** One more, or one less, for every page of a region. */
  ghost predicate Shifted(before: map<nat, nat>, after: map<nat, nat>, r: Region, step: int) {
    forall page: nat :: CountAt(after, page) == CountAt(before, page) + if Covers(r, page) then step else 0
  }

  lemma LockCounts(before: map<nat, nat>, after: map<nat, nat>, regions: seq<Region>, r: Region)
    requires Counts(before, regions) && Shifted(before, after, r, 1)
    ensures Counts(after, [r] + regions)
  {
    forall page: nat
      ensures CountAt(after, page) == Tally([r] + regions, page)
    {
      TallyAdd(regions, r, page);
    }
  }

  lemma UnlockCounts(before: map<nat, nat>, after: map<nat, nat>, regions: seq<Region>, i: nat)
    requires i < |regions| && Counts(before, regions) && Shifted(before, after, regions[i], -1)
    ensures Counts(after, regions[..i] + regions[i + 1..])
  {
    forall page: nat
      ensures CountAt(after, page) == Tally(regions[..i] + regions[i + 1..], page)
    {
      TallyRemove(regions, i, page);
    }
  }

  // -------------------------------------------------- what decides an operation

  // What the operating system will say is a parameter: `refused` are the pages it will not lock, `stuck`
  // those it will not unlock.

  /** With `used` entries taken there is room for the pages up to `end`: a page without an entry takes
      one more, if the operating system agrees. */
  predicate Fits(counts: map<nat, nat>, used: nat, page: nat, end: nat, refused: set<nat>)
    decreases end - page
  {
    if page >= end then true
    else if page in counts then Fits(counts, used, page + 1, end, refused)
    else used < MAX_LOCKED_PAGES && page !in refused && Fits(counts, used + 1, page + 1, end, refused)
  }

  predicate Lockable(counts: map<nat, nat>, r: Region, refused: set<nat>) {
    Fits(counts, |counts|, r.start, r.end, refused)
  }

  /** An empty table has room for exactly 256 pages. */
  lemma {:induction false} RoomFor(used: nat, start: nat, end: nat)
    requires start <= end && used <= 256
    ensures Fits(map[], used, start, end, {}) <==> used + (end - start) <= 256
    decreases end - start
  {
    if start < end && used < 256 {
      RoomFor(used + 1, start + 1, end);
    }
  }

  /** The page has an entry, and the operating system lets go of it if this is the last one. */
  predicate Releases(counts: map<nat, nat>, stuck: set<nat>, page: nat) {
    page in counts && (counts[page] == 1 ==> page !in stuck)
  }

  /** All pages before `page` have let go, and lost one each. */
  ghost predicate Dropped(before: map<nat, nat>, after: map<nat, nat>, r: Region, stuck: set<nat>, page: nat) {
    && (forall k :: k in before ==> before[k] >= 1)
    && (forall k :: Covers(Region(r.start, page), k) ==> Releases(before, stuck, k))
    && Shifted(before, after, Region(r.start, page), -1)
  }

  /** The next page is still as it was. */
  lemma Undropped(before: map<nat, nat>, after: map<nat, nat>, r: Region, stuck: set<nat>, page: nat)
    requires Covers(r, page) && Dropped(before, after, r, stuck, page)
    requires page in after ==> after[page] >= 1
    ensures page in after ==> page in before && before[page] == after[page]
    ensures page !in after ==> StopsAt(before, after, r, stuck, page)
  {
    assert CountAt(after, page) == CountAt(before, page);
  }

  lemma DroppedMore(before: map<nat, nat>, m: map<nat, nat>, after: map<nat, nat>, r: Region, stuck: set<nat>, page: nat)
    requires Covers(r, page) && Dropped(before, m, r, stuck, page)
    requires page in m && page in before && before[page] == m[page]
    requires after == if m[page] == 1 then m - {page} else m[page := m[page] - 1]
    ensures if Releases(before, stuck, page) then Dropped(before, after, r, stuck, page + 1)
      else StopsAt(before, after, r, stuck, page)
  {
    ShiftOne(before, m, after, r.start, page, -1);
  }

  /** `munlock` gives up at `page`, having taken one from every page before it; a page the operating
      system refuses to unlock has lost its entry all the same. */
  ghost predicate StopsAt(before: map<nat, nat>, after: map<nat, nat>, r: Region, stuck: set<nat>, page: nat) {
    && Covers(r, page) && !Releases(before, stuck, page)
    && (forall k :: Covers(Region(r.start, page), k) ==> Releases(before, stuck, k))
    && Shifted(before, after, Region(r.start, if page in before then page + 1 else page), -1)
  }

  /** A lock: every page of the region counted once more, or nothing changed at all. */
  ghost predicate Locks(before: map<nat, nat>, after: map<nat, nat>, r: Region, refused: set<nat>, ok: bool) {
    && ok == Lockable(before, r, refused)
    && (if ok then Shifted(before, after, r, 1) else after == before)
  }

  /** An unlock: every page counted once less, up to the first one that does not let go. */
  ghost predicate Unlocks(before: map<nat, nat>, after: map<nat, nat>, r: Region, stuck: set<nat>, ok: bool) {
    && ok == (forall page :: Covers(r, page) ==> Releases(before, stuck, page))
    && (if ok then Shifted(before, after, r, -1) else exists page :: StopsAt(before, after, r, stuck, page))
  }

  // ------------------------------------------------------------------ the table

  class PageTable {
    var counts: map<nat, nat>
    var osLocked: set<nat>

    /** Every page with an entry is locked by the operating system, and there are at most 256. */
    ghost predicate Sound()
      reads this
    {
      && counts.Keys <= osLocked
      && (forall page :: page in counts ==> counts[page] >= 1)
      && |counts| <= MAX_LOCKED_PAGES
    }

    /** Exactly those pages are locked: true as long as the operating system has refused no unlock. */
    ghost predicate Valid()
      reads this
    {
      Sound() && osLocked == counts.Keys
    }

    constructor ()
      ensures Valid() && counts == map[]
    {
      counts, osLocked := map[], {};
    }

    /** `lock_page`: refused over the cap, otherwise up to the operating system. */
    method LockPage(page: nat, current: nat, willing: bool) returns (ok: bool)
      modifies this`osLocked
      ensures ok == (current < MAX_LOCKED_PAGES && willing)
      ensures osLocked == if ok then old(osLocked) + {page} else old(osLocked)
    {
      ok := current < MAX_LOCKED_PAGES && willing;
      if ok {
        osLocked := osLocked + {page};
      }
    }

    /** `unlock_page`. */
    method UnlockPage(page: nat, willing: bool) returns (ok: bool)
      modifies this`osLocked
      ensures ok == willing
      ensures osLocked == if ok then old(osLocked) - {page} else old(osLocked)
    {
      ok := willing;
      if ok {
        osLocked := osLocked - {page};
      }
    }

    /** Undo the reference counts of `bumped`. */
    method UndoCounts(ghost before: map<nat, nat>, bumped: seq<nat>, ghost newly: seq<nat>)
      requires InProgress(before, counts, bumped, newly)
      modifies this`counts
      ensures counts.Keys == old(counts.Keys)
      ensures InProgress(before, counts, [], newly)
    {
      var i := 0;
      while i < |bumped|
        invariant i <= |bumped| && counts.Keys == old(counts.Keys)
        invariant InProgress(before, counts, bumped[i..], newly)
      {
        var p := bumped[i];
        assert bumped[i..][0] == p && bumped[i..][1..] == bumped[i + 1..];
        NotTwice(bumped[i..]);
        counts := counts[p := counts[p] - 1];
        i := i + 1;
      }
    }

    /** Undo the new locks of `newly`; a refused unlock is ignored. */
    method UndoLocks(ghost before: map<nat, nat>, newly: seq<nat>, stuck: set<nat>)
      requires counts.Keys <= osLocked
      requires InProgress(before, counts, [], newly)
      modifies this
      ensures counts.Keys <= osLocked
      ensures old(osLocked == counts.Keys) && stuck == {} ==> osLocked == counts.Keys
      ensures InProgress(before, counts, [], [])
    {
      var j := 0;
      while j < |newly|
        invariant j <= |newly| && counts.Keys <= osLocked
        invariant old(osLocked == counts.Keys) && stuck == {} ==> osLocked == counts.Keys
        invariant InProgress(before, counts, [], newly[j..])
      {
        var p := newly[j];
        assert newly[j..][0] == p && newly[j..][1..] == newly[j + 1..];
        NotTwice(newly[j..]);
        counts := counts - {p};
        var _ := UnlockPage(p, p !in stuck);
        j := j + 1;
      }
    }

    /** The rollback of a failed `mlock`. */
    method RollBack(ghost before: map<nat, nat>, bumped: seq<nat>, newly: seq<nat>, ghost start: nat, ghost page: nat,
                    stuck: set<nat>)
      requires Sound() && start <= page && Midway(before, counts, bumped, newly, start, page)
      modifies this
      ensures counts == before && counts.Keys <= osLocked
      ensures old(Valid()) && stuck == {} ==> osLocked == counts.Keys
    {
      MidwayMeans(before, counts, bumped, newly, start, page);
      UndoCounts(before, bumped, newly);
      UndoLocks(before, newly, stuck);
      assert counts.Keys == before.Keys;
    }

    /** One page of `mlock`: count it once more, locking it first if it is new. */
    method CountPage(page: nat, willing: bool) returns (ok: bool)
      requires Sound()
      modifies this
      ensures Sound() && (old(Valid()) ==> Valid())
      ensures ok == (page in old(counts) || (willing && |old(counts)| < MAX_LOCKED_PAGES))
      ensures ok ==> counts == old(counts)[page := CountAt(old(counts), page) + 1]
      ensures !ok ==> counts == old(counts)
    {
      if page in counts {
        counts := counts[page := counts[page] + 1];
        return true;
      }
      ok := LockPage(page, |counts|, willing);
      if ok {
        counts := counts[page := 1];
      }
    }

    /** The body of the `mlock` loop: one more page, or everything undone. */
    method LockNext(ghost before: map<nat, nat>, bumped: seq<nat>, newly: seq<nat>, ghost start: nat, page: nat,
                    willing: bool, stuck: set<nat>)
      returns (ok: bool, bumped': seq<nat>, newly': seq<nat>)
      requires Sound() && start <= page && Midway(before, counts, bumped, newly, start, page)
      modifies this
      ensures counts.Keys <= osLocked
      ensures old(Valid()) && (ok || stuck == {}) ==> osLocked == counts.Keys
      ensures ok == (page in before || (willing && |old(counts)| < MAX_LOCKED_PAGES))
      ensures ok ==> Sound() && Midway(before, counts, bumped', newly', start, page + 1)
      ensures ok ==> |counts| == |old(counts)| + if page in before then 0 else 1
      ensures !ok ==> counts == before
    {
      ghost var m := counts;
      Untouched(before, counts, bumped, newly, start, page);
      bumped', newly' := bumped, newly;
      if page in counts {
        bumped' := bumped + [page];
      } else {
        newly' := newly + [page];
      }
      ok := CountPage(page, willing);
      if ok {
        ShiftOne(before, m, counts, start, page, 1);
      } else {
        RollBack(before, bumped, newly, start, page, stuck);
      }
    }

    /** `mlock`: every page of the region counted once more, or nothing changed at all. */
    method Mlock(r: Region, refused: set<nat>, stuck: set<nat>) returns (ok: bool)
      requires Sound()
      modifies this
      ensures Sound() && Locks(old(counts), counts, r, refused, ok)
      ensures old(Valid()) && (ok || stuck == {}) ==> Valid()
    {
      ghost var before := counts;
      var bumped: seq<nat>, newly: seq<nat> := [], [];
      var page := r.start;
      while page < r.end
        invariant Sound() && (old(Valid()) ==> Valid())
        invariant r.start <= page && (page == r.start || page <= r.end)
        invariant Midway(before, counts, bumped, newly, r.start, page)
        invariant Lockable(before, r, refused) == Fits(before, |counts|, page, r.end, refused)
        decreases r.end - page
      {
        ok, bumped, newly := LockNext(before, bumped, newly, r.start, page, page !in refused, stuck);
        if !ok {
          return;
        }
        page := page + 1;
      }
      ok := true;
    }

    /** One page of `munlock`: count it once less, unlocking it when nobody is left. */
    method DropPage(page: nat, willing: bool) returns (ok: bool)
      requires Sound() && page in counts
      modifies this
      ensures Sound()
      ensures ok == (old(counts)[page] == 1 ==> willing)
      ensures counts == if old(counts)[page] == 1 then old(counts) - {page} else old(counts)[page := old(counts)[page] - 1]
      ensures old(Valid()) ==> osLocked == counts.Keys + if ok then {} else {page}
    {
      if counts[page] == 1 {
        counts := counts - {page};
        ok := UnlockPage(page, willing);
      } else {
        counts := counts[page := counts[page] - 1];
        ok := true;
      }
    }

    /** The body of the `munlock` loop. */
    method DropNext(ghost before: map<nat, nat>, ghost r: Region, page: nat, stuck: set<nat>) returns (ok: bool)
      requires Sound() && Covers(r, page) && Dropped(before, counts, r, stuck, page)
      modifies this
      ensures Sound()
      ensures ok ==> Dropped(before, counts, r, stuck, page + 1)
      ensures !ok ==> StopsAt(before, counts, r, stuck, page)
      ensures old(Valid()) && (ok || page !in stuck) ==> Valid()
    {
      Undropped(before, counts, r, stuck, page);
      if page !in counts {
        return false;
      }
      ghost var m := counts;
      ok := DropPage(page, page !in stuck);
      DroppedMore(before, m, counts, r, stuck, page);
    }

    /** `munlock`: every page counted once less, up to the first one that does not let go. */
    method Munlock(r: Region, stuck: set<nat>) returns (ok: bool)
      requires Sound()
      modifies this
      ensures Sound() && Unlocks(old(counts), counts, r, stuck, ok)
      ensures old(Valid()) && (ok || stuck == {}) ==> Valid()
    {
      ghost var before := counts;
      var page := r.start;
      while page < r.end
        invariant Sound() && (old(Valid()) ==> Valid())
        invariant r.start <= page && (page == r.start || page <= r.end)
        invariant Dropped(before, counts, r, stuck, page)
        decreases r.end - page
      {
        ok := DropNext(before, r, page, stuck);
        if !ok {
          return;
        }
        page := page + 1;
      }
      return true;
    }
  }

  /** The pages from `start` up to `page` with, or without, an entry. */
  function Walked(counts: map<nat, nat>, start: nat, page: nat, known: bool): seq<nat>
    requires start <= page
    decreases page
  {
    if page == start then []
    else Walked(counts, start, page - 1, known) + if (page - 1 in counts) == known then [page - 1] else []
  }

  lemma {:induction false} WalkedPages(counts: map<nat, nat>, start: nat, page: nat, known: bool)
    requires start <= page
    ensures forall k :: k in Walked(counts, start, page, known) <==> start <= k < page && (k in counts) == known
    ensures Distinct(Walked(counts, start, page, known))
    decreases page
  {
    if start < page {
      WalkedPages(counts, start, page - 1, known);
    }
  }

  /** `mlock` has counted the pages before `page` once more and remembers how to undo that. */
  ghost predicate Midway(before: map<nat, nat>, counts: map<nat, nat>, bumped: seq<nat>, newly: seq<nat>, start: nat, page: nat)
    requires start <= page
  {
    && (forall k :: k in before ==> before[k] >= 1)
    && bumped == Walked(before, start, page, true)
    && newly == Walked(before, start, page, false)
    && Shifted(before, counts, Region(start, page), 1)
  }

  /** The next page is still as it was. */
  lemma Untouched(before: map<nat, nat>, counts: map<nat, nat>, bumped: seq<nat>, newly: seq<nat>, start: nat, page: nat)
    requires start <= page && Midway(before, counts, bumped, newly, start, page)
    requires page in counts ==> counts[page] >= 1
    ensures page in counts <==> page in before
  {
    assert CountAt(counts, page) == CountAt(before, page);
  }

  lemma MidwayMeans(before: map<nat, nat>, counts: map<nat, nat>, bumped: seq<nat>, newly: seq<nat>, start: nat, page: nat)
    requires start <= page && Midway(before, counts, bumped, newly, start, page)
    requires forall k :: k in counts ==> counts[k] >= 1
    ensures InProgress(before, counts, bumped, newly)
  {
    WalkedPages(before, start, page, true);
    WalkedPages(before, start, page, false);
    forall p: nat
      ensures p in counts <==> p in before || p in newly
      ensures p in before ==> p in counts && counts[p] == before[p] + if p in bumped then 1 else 0
    {
      assert CountAt(counts, p) == CountAt(before, p) + if Covers(Region(start, page), p) then 1 else 0;
    }
  }

  lemma ShiftOne(before: map<nat, nat>, m: map<nat, nat>, after: map<nat, nat>, start: nat, page: nat, step: int)
    requires start <= page && Shifted(before, m, Region(start, page), step)
    requires forall k: nat :: CountAt(after, k) == CountAt(m, k) + if k == page then step else 0
    ensures Shifted(before, after, Region(start, page + 1), step)
  {
  }

  predicate Distinct(s: seq<nat>) {
    forall i, j :: 0 <= i < j < |s| ==> s[i] != s[j]
  }

  /** Midway through a lock: `bumped` pages are one above `before`, `newly` pages are new, others untouched. */
  ghost predicate InProgress(before: map<nat, nat>, counts: map<nat, nat>, bumped: seq<nat>, newly: seq<nat>) {
    && Distinct(bumped) && Distinct(newly)
    && (forall p :: p in bumped ==> p in before && p !in newly)
    && (forall p :: p in newly ==> p !in before)
    && (forall p :: p in counts <==> p in before || p in newly)
    && (forall p :: p in before ==> p in counts && counts[p] == before[p] + if p in bumped then 1 else 0)
  }

  lemma NotTwice(s: seq<nat>)
    requires s != [] && Distinct(s)
    ensures s[0] !in s[1..]
    ensures forall p :: p in s <==> p == s[0] || p in s[1..]
  {
  }

  // ------------------------------------------------------------- matched runs

  /** Lock a region, or unlock the i-th one still outstanding. */
  datatype LockOp = Lock(r: Region, refused: set<nat>) | Unlock(i: nat)

  /** The pages of an outstanding region are all in the table. */
  lemma OutstandingInTable(counts: map<nat, nat>, regions: seq<Region>, i: nat)
    requires i < |regions| && Counts(counts, regions)
    ensures forall page: nat :: Covers(regions[i], page) ==> page in counts
  {
    forall page: nat | Covers(regions[i], page)
      ensures page in counts
    {
      TallyRemove(regions, i, page);
      assert CountAt(counts, page) == Tally(regions, page);
    }
  }

  /** The outstanding regions after one operation that did or did not succeed. */
  function After(live: seq<Region>, op: LockOp, ok: bool): seq<Region> {
    match op
    case Lock(r, _) => if ok then [r] + live else live
    case Unlock(i) => if i < |live| then live[..i] + live[i + 1..] else live
  }

  /** The outstanding regions after a run: what was locked and not yet unlocked. */
  function Outstanding(ops: seq<LockOp>, oks: seq<bool>): seq<Region>
    requires |ops| == |oks|
  {
    if ops == [] then []
    else var n := |ops| - 1; After(Outstanding(ops[..n], oks[..n]), ops[n], oks[n])
  }

  /** A lock succeeds exactly when cap and system have room for it; an unlock of an outstanding region always does. */
  ghost predicate Succeeds(counts: map<nat, nat>, live: seq<Region>, op: LockOp) {
    match op
    case Lock(r, refused) => Lockable(counts, r, refused)
    case Unlock(i) => i < |live|
  }

  /** The table counts the outstanding regions and decides whether the next operation succeeds. */
  ghost predicate Accounts(table: map<nat, nat>, live: seq<Region>, next: Option<(LockOp, bool)>) {
    && Counts(table, live)
    && (next.Some? ==> next.value.1 == Succeeds(table, live, next.value.0))
  }

  function Next(ops: seq<LockOp>, oks: seq<bool>, k: nat): Option<(LockOp, bool)>
    requires |ops| == |oks| && k <= |ops|
  {
    if k == |ops| then None else Some((ops[k], oks[k]))
  }

  /** `tables[k]` is the table before operation `k`, and accounts for it. */
  ghost predicate Explains(ops: seq<LockOp>, oks: seq<bool>, tables: seq<map<nat, nat>>) {
    && |oks| == |ops| && |tables| == |ops| + 1 && tables[0] == map[]
    && forall k :: 0 <= k <= |ops| ==> Accounts(tables[k], Outstanding(ops[..k], oks[..k]), Next(ops, oks, k))
  }

  lemma OutstandingMore(ops: seq<LockOp>, oks: seq<bool>, op: LockOp, ok: bool)
    requires |ops| == |oks|
    ensures Outstanding(ops + [op], oks + [ok]) == After(Outstanding(ops, oks), op, ok)
  {
    var n := |ops|;
    assert (ops + [op])[..n] == ops && (oks + [ok])[..n] == oks;
  }

  lemma ExplainsMore(ops: seq<LockOp>, oks: seq<bool>, tables: seq<map<nat, nat>>, op: LockOp, ok: bool, table: map<nat, nat>)
    requires Explains(ops, oks, tables)
    requires ok == Succeeds(tables[|ops|], Outstanding(ops, oks), op)
    requires Counts(table, After(Outstanding(ops, oks), op, ok))
    ensures Explains(ops + [op], oks + [ok], tables + [table])
  {
    var more, moreOks, more', n := ops + [op], oks + [ok], tables + [table], |ops|;
    OutstandingMore(ops, oks, op, ok);
    forall k | 0 <= k <= n + 1
      ensures Accounts(more'[k], Outstanding(more[..k], moreOks[..k]), Next(more, moreOks, k))
    {
      if k <= n {
        assert more[..k] == ops[..k] && moreOks[..k] == oks[..k];
        assert Accounts(tables[k], Outstanding(ops[..k], oks[..k]), Next(ops, oks, k));
        if k == n {
          assert ops[..k] == ops && oks[..k] == oks;
        }
      } else {
        assert more[..k] == more && moreOks[..k] == moreOks;
      }
    }
  }

  lemma ExplainsLast(ops: seq<LockOp>, oks: seq<bool>, tables: seq<map<nat, nat>>)
    requires Explains(ops, oks, tables)
    ensures Counts(tables[|ops|], Outstanding(ops, oks))
  {
    var n := |ops|;
    assert Accounts(tables[n], Outstanding(ops[..n], oks[..n]), Next(ops, oks, n));
    assert ops[..n] == ops && oks[..n] == oks;
  }

  /** One operation of a run in which the operating system refuses no unlock. */
  method Apply(t: PageTable, op: LockOp, live: seq<Region>) returns (ok: bool)
    requires t.Valid() && Counts(t.counts, live)
    modifies t
    ensures t.Valid() && Counts(t.counts, After(live, op, ok))
    ensures ok == Succeeds(old(t.counts), live, op)
  {
    ghost var before := t.counts;
    match op {
      case Lock(r, refused) =>
        ok := t.Mlock(r, refused, {});
        if ok {
          LockCounts(before, t.counts, live, r);
        }
      case Unlock(i) =>
        ok := i < |live|;
        if ok {
          OutstandingInTable(before, live, i);
          var _ := t.Munlock(live[i], {});
          UnlockCounts(before, t.counts, live, i);
        }
    }
  }

  /** Over any run of locks, failed locks and matched unlocks of overlapping regions, the table counts
      exactly the outstanding regions at every point, and no matched unlock fails. */
  method RunMatched(ops: seq<LockOp>) returns (t: PageTable, live: seq<Region>, oks: seq<bool>, ghost tables: seq<map<nat, nat>>)
    ensures fresh(t) && t.Valid()
    ensures Explains(ops, oks, tables) && tables[|ops|] == t.counts
    ensures live == Outstanding(ops, oks)
  {
    t := new PageTable();
    live, oks, tables := [], [], [t.counts];
    var k := 0;
    while k < |ops|
      invariant k <= |ops| && fresh(t) && t.Valid()
      invariant Explains(ops[..k], oks, tables) && tables[k] == t.counts
      invariant live == Outstanding(ops[..k], oks)
    {
      ExplainsLast(ops[..k], oks, tables);
      var ok := Apply(t, ops[k], live);
      ExplainsMore(ops[..k], oks, tables, ops[k], ok, t.counts);
      OutstandingMore(ops[..k], oks, ops[k], ok);
      assert ops[..k + 1] == ops[..k] + [ops[k]];
      live, oks, tables := After(live, ops[k], ok), oks + [ok], tables + [t.counts];
      k := k + 1;
    }
    assert ops[..k] == ops;
  }

  // ------------------------------------------------------------ unmatched unlocks

  /** Unlocking a region that is not outstanding leaves the table right exactly when the region has no
      pages or its first page has no entry. */
  lemma UnmatchedIff(before: map<nat, nat>, after: map<nat, nat>, regions: seq<Region>, r: Region, stuck: set<nat>, ok: bool)
    requires Counts(before, regions) && Unlocks(before, after, r, stuck, ok)
    ensures Counts(after, regions) <==> r.start >= r.end || r.start !in before
  {
    assert CountAt(before, r.start) == Tally(regions, r.start);
    if r.start < r.end && r.start in before {
      assert CountAt(after, r.start) == CountAt(before, r.start) - 1;
    } else {
      assert Covers(r, r.start) ==> CountAt(before, r.start) == 0;
      forall page: nat
        ensures CountAt(after, page) == CountAt(before, page)
      {
      }
    }
  }

  method UnmatchedUnlock(t: PageTable, ghost regions: seq<Region>, r: Region, stuck: set<nat>) returns (ok: bool)
    requires t.Sound() && Counts(t.counts, regions)
    modifies t
    ensures t.Sound() && Unlocks(old(t.counts), t.counts, r, stuck, ok)
    ensures Counts(t.counts, regions) <==> r.start >= r.end || r.start !in old(t.counts)
  {
    ghost var before := t.counts;
    ok := t.Munlock(r, stuck);
    UnmatchedIff(before, t.counts, regions, r, stuck, ok);
  }

  // ----------------------------------------------- buffers that ignore the outcome

  /** A buffer and whether its lock succeeded, which nobody remembers. */
  datatype Buffer = Buffer(r: Region, locked: bool)

  /** Allocate a buffer, or drop the i-th live one. */
  datatype BufferOp = Allocate(r: Region, refused: set<nat>, keeps: set<nat>) | Drop(i: nat, stuck: set<nat>)

  function Without<T>(s: seq<T>, i: nat): seq<T>
    requires i < |s|
  {
    s[..i] + s[i + 1..]
  }

  /** The regions of the buffers whose lock succeeded. */
  function Held(live: seq<Buffer>): seq<Region> {
    if live == [] then []
    else (if live[0].locked then [live[0].r] else []) + Held(live[1..])
  }

  function AfterBuffer(before: map<nat, nat>, live: seq<Buffer>, op: BufferOp): seq<Buffer> {
    match op
    case Allocate(r, refused, _) => [Buffer(r, Lockable(before, r, refused))] + live
    case Drop(i, _) => if i < |live| then Without(live, i) else live
  }

  predicate AllRelease(counts: map<nat, nat>, r: Region, stuck: set<nat>) {
    forall page | r.start <= page < r.end :: Releases(counts, stuck, page)
  }

  /** The table before and after an operation on a buffer. */
  ghost predicate Moves(before: map<nat, nat>, live: seq<Buffer>, op: BufferOp, after: map<nat, nat>) {
    match op
    case Allocate(r, refused, _) => Locks(before, after, r, refused, Lockable(before, r, refused))
    case Drop(i, stuck) =>
      if i < |live| then Unlocks(before, after, live[i].r, stuck, AllRelease(before, live[i].r, stuck)) else after == before
  }

  /** What an operation needs to keep the table right: a dropped buffer whose lock failed has no pages or
      finds its first page without an entry, and one whose lock succeeded meets no refusal before its last page. */
  predicate Harmless(before: map<nat, nat>, live: seq<Buffer>, op: BufferOp) {
    op.Drop? && op.i < |live| ==>
      var r := live[op.i].r;
      if live[op.i].locked then forall page | r.start <= page < r.end - 1 :: Releases(before, op.stuck, page)
      else r.start >= r.end || r.start !in before
  }

  lemma HeldFirst(live: seq<Buffer>, page: nat)
    requires live != []
    ensures Tally(Held(live), page) == Tally(Held(live[1..]), page) + if live[0].locked && Covers(live[0].r, page) then 1 else 0
  {
    if live[0].locked {
      TallyAdd(Held(live[1..]), live[0].r, page);
    } else {
      assert [] + Held(live[1..]) == Held(live[1..]);
    }
  }

  lemma {:induction false} HeldWithout(live: seq<Buffer>, i: nat, page: nat)
    requires i < |live|
    ensures Tally(Held(Without(live, i)), page) + (if live[i].locked && Covers(live[i].r, page) then 1 else 0)
         == Tally(Held(live), page)
    decreases i
  {
    HeldFirst(live, page);
    if i == 0 {
      assert Without(live, 0) == live[1..];
    } else {
      HeldWithout(live[1..], i - 1, page);
      assert Without(live, i)[0] == live[0] && Without(live, i)[1..] == Without(live[1..], i - 1);
      HeldFirst(Without(live, i), page);
    }
  }

  /** One operation keeps the table right exactly when it is harmless. */
  lemma MoveIff(before: map<nat, nat>, live: seq<Buffer>, op: BufferOp, after: map<nat, nat>)
    requires Counts(before, Held(live)) && Moves(before, live, op, after)
    ensures Counts(after, Held(AfterBuffer(before, live, op))) <==> Harmless(before, live, op)
  {
    match op
    case Allocate(r, refused, _) =>
      var b := Buffer(r, Lockable(before, r, refused));
      assert ([b] + live)[1..] == live;
      if b.locked {
        LockCounts(before, after, Held(live), r);
      } else {
        assert [] + Held(live) == Held(live);
      }
    case Drop(i, stuck) =>
      if i < |live| {
        if live[i].locked {
          HeldDrops(before, live, i, stuck, after);
        } else {
          UnmatchedIff(before, after, Held(live), live[i].r, stuck, AllRelease(before, live[i].r, stuck));
          forall page: nat
            ensures Tally(Held(Without(live, i)), page) == Tally(Held(live), page)
          {
            HeldWithout(live, i, page);
          }
        }
      }
  }

  /** Dropping a locked buffer: a refusal before the last page leaves the later pages counted. */
  lemma HeldDrops(before: map<nat, nat>, live: seq<Buffer>, i: nat, stuck: set<nat>, after: map<nat, nat>)
    requires i < |live| && live[i].locked && Counts(before, Held(live))
    requires Unlocks(before, after, live[i].r, stuck, AllRelease(before, live[i].r, stuck))
    ensures Counts(after, Held(Without(live, i))) <==> Harmless(before, live, Drop(i, stuck))
  {
    var r := live[i].r;
    forall page: nat
      ensures CountAt(before, page) == Tally(Held(Without(live, i)), page) + if Covers(r, page) then 1 else 0
    {
      HeldWithout(live, i, page);
    }
    if !AllRelease(before, r, stuck) {
      var page: nat :| StopsAt(before, after, r, stuck, page);
      assert CountAt(before, page) >= 1;
      if page < r.end - 1 {
        assert CountAt(after, r.end - 1) == CountAt(before, r.end - 1);
      }
    }
  }

  /** `tables[k]` and `lives[k]` are the table and the live buffers before operation `k`. */
  ghost predicate BufferRun(ops: seq<BufferOp>, tables: seq<map<nat, nat>>, lives: seq<seq<Buffer>>) {
    && |tables| == |ops| + 1 && |lives| == |ops| + 1 && tables[0] == map[] && lives[0] == []
    && forall k :: 0 <= k < |ops| ==> BufferStep(ops[k], tables[k], lives[k], tables[k + 1], lives[k + 1])
  }

  ghost predicate BufferStep(op: BufferOp, before: map<nat, nat>, live: seq<Buffer>, after: map<nat, nat>, live': seq<Buffer>) {
    Moves(before, live, op, after) && live' == AfterBuffer(before, live, op)
  }

  lemma {:induction false} RightUpTo(ops: seq<BufferOp>, tables: seq<map<nat, nat>>, lives: seq<seq<Buffer>>, k: nat)
    requires BufferRun(ops, tables, lives) && k <= |ops|
    requires forall j :: 0 <= j < k ==> Harmless(tables[j], lives[j], ops[j])
    ensures Counts(tables[k], Held(lives[k]))
  {
    if k > 0 {
      RightUpTo(ops, tables, lives, k - 1);
      assert BufferStep(ops[k - 1], tables[k - 1], lives[k - 1], tables[k], lives[k]);
      MoveIff(tables[k - 1], lives[k - 1], ops[k - 1], tables[k]);
    }
  }

  /** Over any interleaving of buffers that ignore failed locks, the table counts the locked regions at every
      point exactly when every drop is harmless. */
  lemma BuffersRightIff(ops: seq<BufferOp>, tables: seq<map<nat, nat>>, lives: seq<seq<Buffer>>)
    requires BufferRun(ops, tables, lives)
    ensures (forall k :: 0 <= k <= |ops| ==> Counts(tables[k], Held(lives[k])))
       <==> (forall k :: 0 <= k < |ops| ==> Harmless(tables[k], lives[k], ops[k]))
  {
    if forall k :: 0 <= k <= |ops| ==> Counts(tables[k], Held(lives[k])) {
      forall k | 0 <= k < |ops|
        ensures Harmless(tables[k], lives[k], ops[k])
      {
        assert BufferStep(ops[k], tables[k], lives[k], tables[k + 1], lives[k + 1]);
        MoveIff(tables[k], lives[k], ops[k], tables[k + 1]);
      }
    }
    if forall k :: 0 <= k < |ops| ==> Harmless(tables[k], lives[k], ops[k]) {
      forall k | 0 <= k <= |ops|
        ensures Counts(tables[k], Held(lives[k]))
      {
        RightUpTo(ops, tables, lives, k);
      }
    }
  }

  /** `alloc` and `drop` of a buffer, the outcome of locking and unlocking ignored. */
  method ApplyBuffer(t: PageTable, op: BufferOp, live: seq<Buffer>) returns (live': seq<Buffer>)
    requires t.Sound()
    modifies t
    ensures t.Sound() && BufferStep(op, old(t.counts), live, t.counts, live')
  {
    live' := live;
    match op {
      case Allocate(r, refused, keeps) =>
        var ok := t.Mlock(r, refused, keeps);
        live' := [Buffer(r, ok)] + live;
      case Drop(i, stuck) =>
        if i < |live| {
          var _ := t.Munlock(live[i].r, stuck);
          live' := Without(live, i);
        }
    }
  }

  method RunBuffers(ops: seq<BufferOp>)
    returns (t: PageTable, live: seq<Buffer>, ghost tables: seq<map<nat, nat>>, ghost lives: seq<seq<Buffer>>)
    ensures fresh(t) && t.Sound()
    ensures BufferRun(ops, tables, lives) && tables[|ops|] == t.counts && lives[|ops|] == live
    ensures (forall k :: 0 <= k <= |ops| ==> Counts(tables[k], Held(lives[k])))
       <==> (forall k :: 0 <= k < |ops| ==> Harmless(tables[k], lives[k], ops[k]))
  {
    t := new PageTable();
    live := [];
    tables, lives := [t.counts], [live];
    var k := 0;
    while k < |ops|
      invariant k <= |ops| && fresh(t) && t.Sound()
      invariant BufferRun(ops[..k], tables, lives) && tables[k] == t.counts && lives[k] == live
    {
      live := ApplyBuffer(t, ops[k], live);
      RunMore(ops, k, tables, lives, t.counts, live);
      tables, lives := tables + [t.counts], lives + [live];
      k := k + 1;
    }
    assert ops[..k] == ops;
    BuffersRightIff(ops, tables, lives);
  }

  lemma RunMore(ops: seq<BufferOp>, k: nat, tables: seq<map<nat, nat>>, lives: seq<seq<Buffer>>, table: map<nat, nat>, live: seq<Buffer>)
    requires k < |ops| && BufferRun(ops[..k], tables, lives) && BufferStep(ops[k], tables[k], lives[k], table, live)
    ensures BufferRun(ops[..k + 1], tables + [table], lives + [live])
  {
    var more, more' := tables + [table], lives + [live];
    forall j | 0 <= j < k + 1
      ensures BufferStep(ops[..k + 1][j], more[j], more'[j], more[j + 1], more'[j + 1])
    {
      if j < k {
        assert BufferStep(ops[..k][j], tables[j], lives[j], tables[j + 1], lives[j + 1]);
      }
    }
  }

  /** A buffer on pages 5 and 6 cannot lock page 6, which the system refuses; dropping it all the same
      unlocks page 5, which another buffer holds. */
  lemma StolenLock() returns (held: map<nat, nat>, after: map<nat, nat>)
    ensures Locks(map[], held, Region(5, 6), {6}, true) && Counts(held, [Region(5, 6)])
    ensures Locks(held, held, Region(5, 7), {6}, false)
    ensures Unlocks(held, after, Region(5, 7), {}, false)
    ensures after == map[] && !Counts(after, [Region(5, 6)])
  {
    held, after := map[5 := 1], map[];
    assert Fits(map[], 1, 6, 6, {6});
    assert Counts(held, [Region(5, 6)]) by {
      assert [Region(5, 6)][1..] == [];
    }
    assert !Fits(held, 1, 6, 7, {6});
    assert Covers(Region(5, 7), 6) && !Releases(held, {}, 6);
    assert StopsAt(held, after, Region(5, 7), {}, 6);
    assert Tally([Region(5, 6)], 5) == 1 && CountAt(after, 5) == 0;
  }
}
