/** The entry-group supervision of factory/glideFactory.py: how the entries are
    split into groups, one child process per group, and how a child that exits
    is either restarted or declared to be crashing too often, from a window of
    its most recent startup times. Clock readings are parameters. */
module GlideFactory {
  import opened Wrappers

  function Min(a: int, b: int): int {
    if a <= b then a else b
  }

  /** Python's `//`. Dafny's `/` is Euclidean, which is floor division when the divisor is positive. */
  function FloorDiv(a: int, b: int): int
    requires b != 0
  {
    if b > 0 then a / b else (-a) / (-b)
  }

  lemma DivBounds(a: nat, b: int)
    requires b > 0
    ensures FloorDiv(a, b) * b <= a < (FloorDiv(a, b) + 1) * b
  {
  }

  // ----- entry_grouper -----

  /** The groups laid end to end. */
  function Concat<T>(gs: seq<seq<T>>): seq<T> {
    if gs == [] then [] else gs[0] + Concat(gs[1..])
  }

  /** `entries` cut into consecutive slices of `size`; the last slice holds what is left. */
  function Chunks<T>(entries: seq<T>, size: int): seq<seq<T>>
    requires size > 0
    decreases |entries|
  {
    if |entries| <= size then [entries] else [entries[..size]] + Chunks(entries[size..], size)
  }

  /** The slices of what the loop has not reached yet: none once nothing is left. */
  function Rest<T>(entries: seq<T>, size: int): seq<seq<T>>
    requires size > 0
  {
    if entries == [] then [] else Chunks(entries, size)
  }

  /** `size` is a negative number and there are entries: the loop never binds `group`. */
  datatype GrouperError = UnboundGroup

  /** `entry_grouper(size, entries)`. Each `g_list.insert(k, x)` has `k == len(g_list)`,
      so it appends. */
  method EntryGrouper<T>(size: int, entries: seq<T>) returns (r: Result<seq<seq<T>>, GrouperError>)
    ensures size == 0 ==> r == Ok([])
    ensures size > 0 ==> r == Ok(Chunks(entries, size))
    ensures size < 0 ==> (r.Ok? <==> entries == []) && (r.Ok? ==> r.value == [])
  {
    var gList: seq<seq<T>> := [];
    if size == 0 {
      return Ok(gList);
    }
    if |entries| <= size {
      return Ok([entries]);
    }
    var groups := FloorDiv(|entries|, size);
    if size > 0 {
      DivBounds(|entries|, size);
      TimesIsProduct(groups, size);
    } else {
      FloorDivNegative(|entries|, size);
    }
    var group: Option<int>;
    gList, group := FullSlices(entries, size, groups);
    var g := |gList|;
    if size > 0 {
      FullPrefixChunks(entries, size, groups);
      GrouperTail(entries, size, g, gList);
    }
    if size * |gList| < |entries| {
      if group.None? {
        return Err(UnboundGroup);
      }
      gList := gList + [entries[(group.value + 1) * size ..]];
    }
    r := Ok(gList);
  }

  /** After the loop: the remainder, when there is one, is the last slice. */
  lemma GrouperTail<T>(entries: seq<T>, size: int, g: int, done: seq<seq<T>>)
    requires size > 0 && 0 <= g && g * size <= |entries| < (g + 1) * size
    requires Chunks(entries, size) == done + Rest(entries[g * size..], size)
    ensures g * size < |entries| ==> Chunks(entries, size) == done + [entries[g * size..]]
    ensures g * size == |entries| ==> Chunks(entries, size) == done
  {
    assert (g + 1) * size == g * size + size;
    if g * size == |entries| {
      assert entries[g * size..] == [];
      assert done + [] == done;
    }
  }

  /** `k * size` as repeated addition, which keeps the loop's arithmetic linear. */
  function Times(k: nat, size: int): (t: int)
    ensures size >= 0 ==> t >= 0
  {
    if k == 0 then 0 else Times(k - 1, size) + size
  }

  lemma {:induction false} TimesIsProduct(k: nat, size: int)
    ensures Times(k, size) == k * size
  {
    if k > 0 {
      TimesIsProduct(k - 1, size);
    }
  }

  lemma {:induction false} TimesGrows(j: nat, k: nat, size: int)
    requires j <= k && size > 0
    ensures Times(j, size) <= Times(k, size)
    decreases k - j
  {
    if j < k {
      TimesGrows(j + 1, k, size);
    }
  }

  /** The first `k` full slices of `size`. */
  function FullPrefix<T>(entries: seq<T>, size: int, k: nat): seq<seq<T>>
    requires size > 0 && Times(k, size) <= |entries|
  {
    if k == 0 then [] else
      TimesGrows(k - 1, k, size);
      FullPrefix(entries, size, k - 1) + [entries[Times(k - 1, size) .. Times(k, size)]]
  }

  /** The full slices are the front of the chunks, and the rest chunks what is left. */
  lemma {:induction false} FullPrefixChunks<T>(entries: seq<T>, size: int, k: nat)
    requires size > 0 && Times(k, size) <= |entries| && entries != []
    ensures Chunks(entries, size) == FullPrefix(entries, size, k) + Rest(entries[Times(k, size)..], size)
  {
    if k == 0 {
      assert entries[0..] == entries;
    } else {
      TimesGrows(k - 1, k, size);
      FullPrefixChunks(entries, size, k - 1);
      SliceStep(entries, size, FullPrefix(entries, size, k - 1), Times(k - 1, size));
    }
  }

  /** The loop of `entry_grouper`: the full slices, and the value the loop variable `group`
      is left with (None when the loop never runs). */
  method FullSlices<T>(entries: seq<T>, size: int, groups: int) returns (gList: seq<seq<T>>, group: Option<int>)
    requires size != 0
    requires size < 0 ==> groups <= 0
    requires size > 0 ==> 0 <= groups && Times(groups, size) <= |entries|
    ensures |gList| == (if groups > 0 then groups else 0)
    ensures group == (if groups > 0 then Some(groups - 1) else None)
    ensures size > 0 ==> gList == FullPrefix(entries, size, groups)
  {
    gList := [];
    group := None;
    var g, lo := 0, 0;  // lo is `g * size`, where the next group starts
    while g < groups
      invariant 0 <= g && (size < 0 ==> g == 0) && (size > 0 ==> g <= groups)
      invariant lo == Times(g, size) && |gList| == g && group == (if g == 0 then None else Some(g - 1))
      invariant size > 0 ==> lo <= |entries| && gList == FullPrefix(entries, size, g)
    {
      TimesGrows(g + 1, groups, size);
      gList := gList + [entries[lo .. lo + size]];
      group := Some(g);
      g, lo := g + 1, lo + size;
    }
  }

  /** With a negative `size` the loop has nothing to do. */
  lemma FloorDivNegative(a: nat, b: int)
    requires b < 0
    ensures FloorDiv(a, b) <= 0
  {
    var na: int := 0 - a as int;
    var q := na / (-b);
    assert q * (-b) <= na;
    if q > 0 {
      MulLe(1, q, -b);
    }
  }

  lemma MulLe(a: int, b: int, c: int)
    requires a <= b && c >= 0
    ensures a * c <= b * c
  {
    assert b * c - a * c == (b - a) * c;
  }

  /** One pass of the loop: a full slice comes off the front of what is left. */
  lemma ChunkStep<T>(entries: seq<T>, size: int, lo: int)
    requires size > 0 && 0 <= lo && lo + size <= |entries|
    ensures Rest(entries[lo..], size) == [entries[lo .. lo + size]] + Rest(entries[lo + size..], size)
  {
    var e := entries[lo..];
    assert e[..size] == entries[lo .. lo + size];
    assert e[size..] == entries[lo + size..];
    if |e| == size {
      assert e == e[..size];
    }
  }

  /** The loop's invariant carries over one pass. */
  lemma SliceStep<T>(entries: seq<T>, size: int, done: seq<seq<T>>, lo: int)
    requires size > 0 && 0 <= lo && lo + size <= |entries|
    requires Chunks(entries, size) == done + Rest(entries[lo..], size)
    ensures Chunks(entries, size) == (done + [entries[lo .. lo + size]]) + Rest(entries[lo + size..], size)
  {
    ChunkStep(entries, size, lo);
    assert done + ([entries[lo .. lo + size]] + Rest(entries[lo + size..], size))
        == (done + [entries[lo .. lo + size]]) + Rest(entries[lo + size..], size);
  }

  /** The groups put back together are the entries. */
  lemma {:induction false} ChunksConcat<T>(entries: seq<T>, size: int)
    requires size > 0
    ensures Concat(Chunks(entries, size)) == entries
    decreases |entries|
  {
    if |entries| > size {
      ChunksConcat(entries[size..], size);
      assert entries[..size] + entries[size..] == entries;
    }
  }

  /** All groups but the last are full; the last is not over `size`, and not empty when
      there are entries. */
  lemma {:induction false} ChunksSizes<T>(entries: seq<T>, size: int)
    requires size > 0
    ensures var gs := Chunks(entries, size);
            (forall i :: 0 <= i < |gs| - 1 ==> |gs[i]| == size)
            && |gs[|gs| - 1]| <= size && (entries != [] ==> gs[|gs| - 1] != [])
    decreases |entries|
  {
    if |entries| > size {
      ChunksSizes(entries[size..], size);
      var gs := Chunks(entries, size);
      assert gs[1..] == Chunks(entries[size..], size);
    }
  }

  /** There are `ceil(len(entries) / size)` groups. */
  lemma {:induction false} ChunksCount<T>(entries: seq<T>, size: int)
    requires size > 0 && entries != []
    ensures |Chunks(entries, size)| == (|entries| + size - 1) / size
    decreases |entries|
  {
    if |entries| > size {
      ChunksCount(entries[size..], size);
      assert |entries[size..]| + size - 1 == |entries| - 1;
      DivShift(|entries| + size - 1, size);
    } else {
      DivOne(|entries| + size - 1, size);
    }
  }

  /** The quotient is the one `q` with `q * size <= x < (q + 1) * size`. */
  lemma QuotientUnique(x: int, size: int, q: int)
    requires size > 0 && q * size <= x < (q + 1) * size
    ensures x / size == q
  {
    var q0 := x / size;
    assert q0 * size <= x < (q0 + 1) * size;
    if q < q0 {
      MulLe(q + 1, q0, size);
    } else if q > q0 {
      MulLe(q0 + 1, q, size);
    }
  }

  lemma DivShift(x: int, size: int)
    requires size > 0 && x >= size
    ensures x / size == (x - size) / size + 1
  {
    var q := (x - size) / size;
    assert q * size <= x - size < (q + 1) * size;
    assert (q + 1) * size == q * size + size && (q + 2) * size == (q + 1) * size + size;
    QuotientUnique(x, size, q + 1);
  }

  lemma DivOne(x: int, size: int)
    requires size > 0 && size <= x < 2 * size
    ensures x / size == 1
  {
    QuotientUnique(x, size, 1);
  }

  // ----- is_crashing_often -----

  /** `startup_time[0]` of an empty list. */
  datatype CrashCheckError = IndexError

  /** `is_crashing_often(startup_time, restart_interval, restart_attempts)` with the clock
      reading `now`: not while restart attempts remain; with one attempt allowed, always;
      otherwise when the oldest recorded start is less than `restartInterval` ago. */
  function IsCrashingOften(startupTime: seq<int>, now: int, restartInterval: int, restartAttempts: int)
    : (r: Result<bool, CrashCheckError>)
    ensures r.Err? <==> startupTime == [] && restartAttempts <= 0
    ensures |startupTime| < restartAttempts ==> r == Ok(false)
    ensures |startupTime| >= restartAttempts && restartAttempts == 1 ==> r == Ok(true)
  {
    if |startupTime| < restartAttempts then Ok(false)
    else if restartAttempts == 1 then Ok(true)
    else if startupTime == [] then Err(IndexError)
    else if now - startupTime[0] >= restartInterval then Ok(false)
    else Ok(true)
  }

  // ----- The window of startup times -----

  /** `times` is what the window holds after the starts `history`: the last `attempts` of
      them in order, or all of them when `attempts` is not positive (the window never pops). */
  ghost predicate WindowOf(times: seq<int>, history: seq<int>, attempts: int) {
    |history| >= 1 &&
    if attempts >= 1 then times == history[|history| - Min(|history|, attempts)..] else times == history
  }

  /** The window that is filled: the oldest entry goes when it holds `attempts` times. */
  function Pushed(times: seq<int>, attempts: int, now: int): seq<int> {
    (if |times| == attempts && times != [] then times[1..] else times) + [now]
  }

  /** Pushing a start onto the window of a history gives the window of the longer history. */
  lemma PushedWindow(times: seq<int>, history: seq<int>, attempts: int, now: int)
    requires WindowOf(times, history, attempts)
    ensures WindowOf(Pushed(times, attempts, now), history + [now], attempts)
  {
    var h := history + [now];
    if attempts >= 1 {
      if |history| >= attempts {
        assert times == history[|history| - attempts..];
        assert h[|h| - attempts..] == times[1..] + [now];
      } else {
        assert h[|h| - Min(|h|, attempts)..] == h[0..] == times + [now];
      }
    }
  }

  /** The window holds at most `attempts` times when `attempts` is positive, and never is empty. */
  lemma WindowBounds(times: seq<int>, history: seq<int>, attempts: int)
    requires WindowOf(times, history, attempts)
    ensures 1 <= |times| && (attempts >= 1 ==> |times| <= attempts)
    ensures times[|times| - 1] == history[|history| - 1]
  {
  }

  /** On a window, the crash check never fails, and it answers whether the start
      `attempts` starts back happened less than `restartInterval` before `now`. */
  lemma CrashCheckOfWindow(times: seq<int>, history: seq<int>, attempts: int, now: int, restartInterval: int)
    requires WindowOf(times, history, attempts)
    ensures IsCrashingOften(times, now, restartInterval, attempts).Ok?
    ensures attempts == 1 ==> IsCrashingOften(times, now, restartInterval, attempts) == Ok(true)
    ensures attempts >= 2 ==> IsCrashingOften(times, now, restartInterval, attempts)
                                == Ok(|history| >= attempts && now - history[|history| - attempts] < restartInterval)
    ensures attempts <= 0 ==> IsCrashingOften(times, now, restartInterval, attempts)
                                == Ok(now - history[0] < restartInterval)
  {
    if attempts >= 2 && |history| >= attempts {
      assert times[0] == history[|history| - attempts];
    }
  }

  /** `children_uptime[group]`: the startup times of one entry-group child. */
  class StartupTimes {
    var times: seq<int>
    const attempts: int
    /** Every start, first to last. */
    ghost var history: seq<int>

    ghost predicate Valid()
      reads this
    {
      WindowOf(times, history, attempts)
    }

    /** The first start: `children_uptime[group] = [time.time()]`. */
    constructor(now: int, attempts: int)
      ensures Valid() && times == [now] && history == [now] && this.attempts == attempts
    {
      times := [now];
      history := [now];
      this.attempts := attempts;
    }

    /** A restart: pop the oldest when the window is full, then append. */
    method Restart(now: int)
      requires Valid()
      modifies this
      ensures Valid() && history == old(history) + [now]
      ensures times == Pushed(old(times), attempts, now)
    {
      PushedWindow(times, history, attempts, now);
      if |times| == attempts {
        times := times[1..];
      }
      times := times + [now];
      history := history + [now];
    }

    /** A child exited: quit the factory when it is crashing too often (`checkTime` is the
        clock at the check), otherwise restart it (`restartTime` is the clock at the restart). */
    method OnExit(checkTime: int, restartTime: int, restartInterval: int) returns (quit: bool)
      requires Valid()
      modifies this
      ensures Valid()
      ensures IsCrashingOften(old(times), checkTime, restartInterval, attempts) == Ok(quit)
      ensures quit ==> times == old(times) && history == old(history)
      ensures !quit ==> times == Pushed(old(times), attempts, restartTime) && history == old(history) + [restartTime]
    {
      CrashCheckOfWindow(times, history, attempts, checkTime, restartInterval);
      var crashing := IsCrashingOften(times, checkTime, restartInterval, attempts);
      quit := crashing.value;
      if !quit {
        Restart(restartTime);
      }
    }
  }
}
