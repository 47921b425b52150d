/** The fixed-window rate limiter (src/runtime/security.c): what one call does to the
    table, and what follows for runs of calls. */
module RateLimit {
  import opened Wrappers

  const RATE_ENTRIES: nat := 8192
  const PROBES: nat := 16
  const IP_MAX: nat := 45
  const TWO_32: nat := 0x1_0000_0000

  datatype RateEntry = RateEntry(ip: string, count: nat, windowStart: int, active: bool)

  const UNUSED: RateEntry := RateEntry("", 0, 0, false)

  /** `rate_limit_max` calls in `rate_limit_window` seconds. */
  datatype RateConfig = RateConfig(max: nat, window: nat)

  /** What `strncpy` keeps of an address. */
  function Stored(ip: string): string {
    if |ip| <= IP_MAX then ip else ip[..IP_MAX]
  }

  function ProbeAt(h: nat, p: nat): (i: nat)
    ensures i < RATE_ENTRIES
  {
    (h % RATE_ENTRIES + p) % RATE_ENTRIES
  }

  /** The first slot from probe `p` on that is unused or holds `ip`. */
  function Search(table: seq<RateEntry>, ip: string, h: nat, p: nat): (r: Option<nat>)
    requires |table| == RATE_ENTRIES && p <= PROBES
    ensures r.Some? ==> r.value < |table| && (table[r.value].active ==> table[r.value].ip == ip)
    decreases PROBES - p
  {
    if p == PROBES then None
    else
      var i := ProbeAt(h, p);
      if !table[i].active || table[i].ip == ip then Some(i) else Search(table, ip, h, p + 1)
  }

  /** `(uint32_t)(now - start)` */
  function Elapsed(start: int, now: int): nat {
    (now - start) % TWO_32
  }

  /** A call that found its slot. */
  function Touch(entry: RateEntry, ip: string, now: int, config: RateConfig): (RateEntry, bool) {
    if !entry.active then (RateEntry(Stored(ip), 1, now, true), true)
    else if Elapsed(entry.windowStart, now) >= config.window then (entry.(count := 1, windowStart := now), true)
    else
      var count := (entry.count + 1) % TWO_32;
      (entry.(count := count), count <= config.max)
  }

  /** check_rate_limit: the new table and whether the call is accepted. */
  function RateCheck(table: seq<RateEntry>, ip: string, h: nat, now: int,
      config: RateConfig): (r: (seq<RateEntry>, bool))
    requires |table| == RATE_ENTRIES
    ensures |r.0| == RATE_ENTRIES
  {
    match Search(table, ip, h, 0)
    case None => (table, true)
    case Some(i) =>
      var (entry, ok) := Touch(table[i], ip, now, config);
      (table[i := entry], ok)
  }

  // ----- runs -----

  datatype Call = Call(ip: string, now: int)

  /** The hash of addresses and the configuration. */
  datatype Limiter = Limiter(hash: string -> nat, config: RateConfig) {

    function After(table: seq<RateEntry>, c: Call): (seq<RateEntry>, bool)
      requires |table| == RATE_ENTRIES
    {
      RateCheck(table, c.ip, hash(c.ip), c.now, config)
    }

    function Run(table: seq<RateEntry>, calls: seq<Call>): (t: seq<RateEntry>)
      requires |table| == RATE_ENTRIES
      ensures |t| == RATE_ENTRIES
      decreases |calls|
    {
      if calls == [] then table else Run(After(table, calls[0]).0, calls[1..])
    }

    /** How many calls of `ip` a run accepts. */
    function Accepted(table: seq<RateEntry>, calls: seq<Call>, ip: string): nat
      requires |table| == RATE_ENTRIES
      decreases |calls|
    {
      if calls == [] then 0
      else
        var (t, ok) := After(table, calls[0]);
        (if ok && calls[0].ip == ip then 1 else 0) + Accepted(t, calls[1..], ip)
    }

    predicate Tracks(table: seq<RateEntry>, ip: string, i: nat)
      requires |table| == RATE_ENTRIES
    {
      Search(table, ip, hash(ip), 0) == Some(i) && i < |table| && table[i].active
    }

    /** At least one call is accepted in every window, whatever the limit. */
    function Quota(): nat {
      if config.max == 0 then 1 else config.max
    }

    // ----- slots -----

    lemma {:induction false} SearchKept(table: seq<RateEntry>, c: Call, ip: string, p: nat)
      requires |table| == RATE_ENTRIES && p <= PROBES
      requires Search(table, ip, hash(ip), p).Some? ==> table[Search(table, ip, hash(ip), p).value].active
      ensures Search(After(table, c).0, ip, hash(ip), p) == Search(table, ip, hash(ip), p)
      decreases PROBES - p
    {
      if p < PROBES {
        var i := ProbeAt(hash(ip), p);
        if table[i].active && table[i].ip != ip {
          SearchKept(table, c, ip, p + 1);
        }
      }
    }

    /** A tracked address keeps its slot in every later state, and only its own calls change the slot. */
    lemma SlotKept(table: seq<RateEntry>, c: Call, ip: string, i: nat)
      requires |table| == RATE_ENTRIES && Tracks(table, ip, i)
      ensures Tracks(After(table, c).0, ip, i)
      ensures c.ip != ip ==> After(table, c).0[i] == table[i]
      ensures c.ip == ip ==>
        After(table, c) == (table[i := Touch(table[i], ip, c.now, config).0], Touch(table[i], ip, c.now, config).1)
    {
      SearchKept(table, c, ip, 0);
    }

    lemma {:induction false} SlotKeptInRun(table: seq<RateEntry>, calls: seq<Call>, ip: string, i: nat)
      requires |table| == RATE_ENTRIES && Tracks(table, ip, i)
      ensures Tracks(Run(table, calls), ip, i)
      decreases |calls|
    {
      if calls != [] {
        SlotKept(table, calls[0], ip, i);
        SlotKeptInRun(After(table, calls[0]).0, calls[1..], ip, i);
      }
    }

    lemma AlwaysAccepted(table: seq<RateEntry>, c: Call)
      requires |table| == RATE_ENTRIES
      requires Search(table, c.ip, hash(c.ip), 0).Some? ==> !table[Search(table, c.ip, hash(c.ip), 0).value].active
      ensures After(table, c).1
    {
    }

    /** An address whose sixteen slots are taken by others is never limited. */
    lemma {:induction false} NeverLimited(table: seq<RateEntry>, calls: seq<Call>, ip: string)
      requires |table| == RATE_ENTRIES && Search(table, ip, hash(ip), 0) == None
      ensures Accepted(table, calls, ip) == |TimesOf(calls, ip)|
      decreases |calls|
    {
      if calls != [] {
        hide RateCheck;
        SearchKept(table, calls[0], ip, 0);
        if calls[0].ip == ip {
          AlwaysAccepted(table, calls[0]);
        }
        NeverLimited(After(table, calls[0]).0, calls[1..], ip);
      }
    }

    static function TimesOf(calls: seq<Call>, ip: string): (ts: seq<int>)
      ensures |ts| <= |calls|
    {
      if calls == [] then []
      else (if calls[0].ip == ip then [calls[0].now] else []) + TimesOf(calls[1..], ip)
    }

    // ----- one slot -----

    function Accepts(entry: RateEntry, times: seq<int>): nat
      decreases |times|
    {
      if times == [] then 0
      else
        var (e, ok) := Touch(entry, entry.ip, times[0], config);
        (if ok then 1 else 0) + Accepts(e, times[1..])
    }

    /** The calls of a tracked address are counted as if its slot were alone. */
    lemma {:induction false} OneSlot(table: seq<RateEntry>, calls: seq<Call>, ip: string, i: nat)
      requires |table| == RATE_ENTRIES && Tracks(table, ip, i)
      ensures Accepted(table, calls, ip) == Accepts(table[i], TimesOf(calls, ip))
      decreases |calls|
    {
      if calls != [] {
        hide RateCheck, Touch;
        var c, rest := calls[0], TimesOf(calls[1..], ip);
        SlotKept(table, c, ip, i);
        OneSlot(After(table, c).0, calls[1..], ip, i);
        if c.ip == ip {
          assert TimesOf(calls, ip) == [c.now] + rest;
          assert ([c.now] + rest)[1..] == rest;
        } else {
          assert TimesOf(calls, ip) == rest;
        }
      }
    }

    /** Within one window, call number k (from 0) after the one that opened it is
        accepted exactly while fewer than the quota have been: min(calls, quota) in all. */
    lemma {:induction false} InWindow(entry: RateEntry, times: seq<int>)
      requires entry.active && (1 <= entry.count || 1 <= config.max) && entry.count + |times| < TWO_32
      requires forall k :: 0 <= k < |times| ==> 0 <= times[k] - entry.windowStart < config.window
      requires config.window <= TWO_32
      ensures Accepts(entry, times) == Least(|times|, Room(entry))
      decreases |times|
    {
      if times != [] {
        assert times[0] - entry.windowStart == Elapsed(entry.windowStart, times[0]);
        InWindow(Touch(entry, entry.ip, times[0], config).0, times[1..]);
      }
    }

    static function Least(a: nat, b: nat): nat {
      if a <= b then a else b
    }

    /** How many more calls of its window the entry lets through. */
    function Room(entry: RateEntry): nat {
      if entry.count >= Quota() then 0 else Quota() - entry.count
    }

    /** A call at this time opens a new window. */
    predicate Opens(entry: RateEntry, now: int) {
      !entry.active || Elapsed(entry.windowStart, now) >= config.window
    }

    function EntryAfter(entry: RateEntry, times: seq<int>): RateEntry
      decreases |times|
    {
      if times == [] then entry else EntryAfter(Touch(entry, entry.ip, times[0], config).0, times[1..])
    }

    lemma {:induction false} AcceptsAppend(entry: RateEntry, a: seq<int>, b: seq<int>)
      ensures Accepts(entry, a + b) == Accepts(entry, a) + Accepts(EntryAfter(entry, a), b)
      decreases |a|
    {
      if a == [] {
        assert a + b == b;
      } else {
        hide Touch;
        assert (a + b)[1..] == a[1..] + b;
        AcceptsAppend(Touch(entry, entry.ip, a[0], config).0, a[1..], b);
      }
    }

    lemma {:induction false} CountedInWindow(entry: RateEntry, times: seq<int>)
      requires entry.active && entry.count + |times| < TWO_32 && config.window <= TWO_32
      requires forall k :: 0 <= k < |times| ==> 0 <= times[k] - entry.windowStart < config.window
      ensures EntryAfter(entry, times) == entry.(count := entry.count + |times|)
      decreases |times|
    {
      if times != [] {
        assert times[0] - entry.windowStart == Elapsed(entry.windowStart, times[0]);
        CountedInWindow(Touch(entry, entry.ip, times[0], config).0, times[1..]);
      }
    }

    /** The call that opens a window, and calls within that window. */
    predicate Window(entry: RateEntry, times: seq<int>) {
      && times != [] && config.window <= TWO_32 && config.max < TWO_32 && Opens(entry, times[0])
      && forall k :: 0 <= k < |times| ==> 0 <= times[k] - times[0] < config.window
    }

    lemma WindowExact(entry: RateEntry, times: seq<int>)
      requires Window(entry, times) && |times| < TWO_32
      ensures Accepts(entry, times) == Least(|times|, Quota())
    {
      InWindow(Touch(entry, entry.ip, times[0], config).0, times[1..]);
    }

    /** 2^32 - 1 calls into a window the counter has come as far as it goes. */
    lemma WindowFull(entry: RateEntry, times: seq<int>)
      requires Window(entry, times) && |times| == TWO_32 - 1
      ensures var e := EntryAfter(entry, times); e.active && e.count == TWO_32 - 1 && e.windowStart == times[0]
    {
      CountedInWindow(Touch(entry, entry.ip, times[0], config).0, times[1..]);
    }

    /** A window accepts exactly min(calls, quota) if and only if it has fewer than 2^32
        calls: the next one starts the counter again, and is accepted. */
    lemma WindowIff(entry: RateEntry, times: seq<int>)
      requires Window(entry, times)
      ensures Accepts(entry, times) == Least(|times|, Quota()) <==> |times| < TWO_32
    {
      if |times| < TWO_32 {
        WindowExact(entry, times);
      } else {
        hide Touch, Elapsed;
        var a, b := times[..TWO_32 - 1], times[TWO_32 - 1..];
        assert times == a + b;
        AcceptsAppend(entry, a, b);
        WindowExact(entry, a);
        WindowFull(entry, a);
        WrapAccepts(EntryAfter(entry, a), b[0]);
      }
    }

    /** At 2^32 - 1 the next call in the window makes the counter zero. */
    lemma WrapAccepts(entry: RateEntry, now: int)
      requires entry.active && entry.count == TWO_32 - 1 && 0 <= now - entry.windowStart < config.window <= TWO_32
      ensures Touch(entry, entry.ip, now, config) == (entry.(count := 0), true)
    {
      assert now - entry.windowStart == Elapsed(entry.windowStart, now);
    }

    /** From there on `n` calls in the same window, up to one more than the quota, are accepted. */
    lemma AcceptsSecond(entry: RateEntry, times: seq<int>)
      requires entry.active && entry.count == TWO_32 - 1 && 1 <= config.max < TWO_32 - 1 && config.window <= TWO_32
      requires 0 < |times| <= config.max + 1
      requires forall k :: 0 <= k < |times| ==> 0 <= times[k] - entry.windowStart < config.window
      ensures Accepts(entry, times) == |times|
    {
      hide Touch, Elapsed;
      WrapAccepts(entry, times[0]);
      InWindow(entry.(count := 0), times[1..]);
    }

    lemma SecondIff(entry: RateEntry, times: seq<int>)
      requires entry.active && entry.count == TWO_32 - 1 && 1 <= config.max < TWO_32 - 1 && config.window <= TWO_32
      requires forall k :: 0 <= k < |times| ==> 0 <= times[k] - entry.windowStart < config.window
      ensures Accepts(entry, times) <= Quota() <==> |times| <= config.max
    {
      hide Touch, Elapsed, Accepts;
      if times == [] {
        AcceptsNone(entry);
      } else if |times| <= config.max + 1 {
        AcceptsSecond(entry, times);
      } else {
        var a, b := times[..config.max + 1], times[config.max + 1..];
        assert times == a + b;
        AcceptsAppend(entry, a, b);
        AcceptsSecond(entry, a);
      }
    }

    /** Twice the quota, the bound for any span of a window's length, holds for a whole window
        if and only if it has fewer than 2^32 + limit calls. */
    lemma WindowBoundIff(entry: RateEntry, times: seq<int>)
      requires Window(entry, times) && 1 <= config.max < TWO_32 - 1
      ensures Accepts(entry, times) <= 2 * Quota() <==> |times| < TWO_32 + config.max
    {
      hide Touch, Elapsed, Accepts;
      if |times| < TWO_32 {
        WindowExact(entry, times);
      } else {
        var a, b := times[..TWO_32 - 1], times[TWO_32 - 1..];
        assert times == a + b;
        AcceptsAppend(entry, a, b);
        WindowExact(entry, a);
        WindowFull(entry, a);
        SecondIff(EntryAfter(entry, a), b);
      }
    }

    lemma AcceptsNone(entry: RateEntry)
      ensures Accepts(entry, []) == 0
    {
    }

    /** Times in order, from `from` on, before `from + span`. */
    static predicate Ordered(times: seq<int>, from: int, span: nat) {
      && (forall k :: 0 <= k < |times| ==> from <= times[k] < from + span)
      && (forall k, l :: 0 <= k < l < |times| ==> times[k] <= times[l])
    }

    /** No call finds the counter of its window at 2^32 - 1. */
    predicate NoWrap(entry: RateEntry, times: seq<int>)
      decreases |times|
    {
      times == [] || (
        && (Opens(entry, times[0]) || entry.count + 1 < TWO_32)
        && NoWrap(Touch(entry, entry.ip, times[0], config).0, times[1..]))
    }

    lemma {:induction false} NoWrapInWindow(entry: RateEntry, times: seq<int>)
      requires entry.active && entry.count < TWO_32 && config.window <= TWO_32
      requires forall k :: 0 <= k < |times| ==> 0 <= times[k] - entry.windowStart < config.window
      ensures NoWrap(entry, times) <==> entry.count + |times| < TWO_32
      decreases |times|
    {
      if times != [] && entry.count + 1 < TWO_32 {
        assert times[0] - entry.windowStart == Elapsed(entry.windowStart, times[0]);
        NoWrapInWindow(Touch(entry, entry.ip, times[0], config).0, times[1..]);
      } else if times != [] {
        assert times[0] - entry.windowStart == Elapsed(entry.windowStart, times[0]);
      }
    }

    /** A sufficient count: the calls to come, with those so far if they go on the same counter. */
    lemma {:induction false} NoWrapIf(entry: RateEntry, times: seq<int>)
      requires times == [] || (if Opens(entry, times[0]) then 0 else entry.count) + |times| < TWO_32
      ensures NoWrap(entry, times)
      decreases |times|
    {
      if times != [] {
        NoWrapIf(Touch(entry, entry.ip, times[0], config).0, times[1..]);
      }
    }

    /** What a span no longer than a window can hold: the rest of one window and one more. */
    lemma {:induction false} InSpan(entry: RateEntry, times: seq<int>, from: int)
      requires NoWrap(entry, times) && 1 <= config.window < TWO_32
      requires Ordered(times, from, config.window)
      ensures Accepts(entry, times) <= (if entry.active then Room(entry) else 0) + Quota()
      decreases |times|
    {
      if times != [] {
        var t := times[0];
        var e := Touch(entry, entry.ip, t, config).0;
        if Opens(entry, t) {
          NoWrapInWindow(e, times[1..]);
          InWindow(e, times[1..]);
        } else {
          InSpan(e, times[1..], from);
        }
      }
    }

    // ----- whole runs -----

    static predicate InOrder(calls: seq<Call>) {
      forall k, l :: 0 <= k < l < |calls| ==> calls[k].now <= calls[l].now
    }

    /** The times of `calls` lie in [from, to). */
    static predicate Within(calls: seq<Call>, from: int, to: int) {
      forall k :: 0 <= k < |calls| ==> from <= calls[k].now < to
    }

    lemma {:induction false} TimesOrdered(calls: seq<Call>, ip: string, from: int, span: nat)
      requires InOrder(calls) && Within(calls, from, from + span)
      ensures Ordered(TimesOf(calls, ip), from, span)
    {
      if calls != [] {
        var now := calls[0].now;
        TimesOrdered(calls[1..], ip, now, from + span - now);
      }
    }

    /** What the next call of `ip` finds. */
    function EntryFor(table: seq<RateEntry>, ip: string): RateEntry
      requires |table| == RATE_ENTRIES
    {
      var slot := Search(table, ip, hash(ip), 0);
      if slot.Some? && table[slot.value].active then table[slot.value] else RateEntry(ip, 0, 0, false)
    }

    /** Calls from one on that finds a slot for its address, within one window's length. */
    predicate Burst(table: seq<RateEntry>, calls: seq<Call>, ip: string)
      requires |table| == RATE_ENTRIES
    {
      && |ip| <= IP_MAX && 1 <= config.window < TWO_32
      && calls != [] && calls[0].ip == ip && Search(table, ip, hash(ip), 0).Some?
      && InOrder(calls) && Within(calls, calls[0].now, calls[0].now + config.window)
    }

    /** Also from an address's first call on, its calls are counted as if its slot were alone. */
    lemma SlotAlone(table: seq<RateEntry>, calls: seq<Call>, ip: string)
      requires |table| == RATE_ENTRIES && |ip| <= IP_MAX && Search(table, ip, hash(ip), 0).Some?
      requires calls != [] && calls[0].ip == ip
      ensures Accepted(table, calls, ip) == Accepts(EntryFor(table, ip), TimesOf(calls, ip))
    {
      hide RateCheck, Touch, Search;
      var c, i := calls[0], Search(table, ip, hash(ip), 0).value;
      if table[i].active {
        OneSlot(table, calls, ip, i);
      } else {
        var t, rest := After(table, c).0, TimesOf(calls[1..], ip);
        NewSlot(table, c, i);
        OneSlot(t, calls[1..], ip, i);
        FirstTouch(ip, c.now);
        assert TimesOf(calls, ip) == [c.now] + rest;
        assert ([c.now] + rest)[1..] == rest;
      }
    }

    lemma FirstTouch(ip: string, now: int)
      requires |ip| <= IP_MAX
      ensures Touch(RateEntry(ip, 0, 0, false), ip, now, config) == (RateEntry(ip, 1, now, true), true)
    {
    }

    /** They are accepted at most twice the quota if the counter does not wrap. */
    lemma SpanBound(table: seq<RateEntry>, calls: seq<Call>, ip: string)
      requires |table| == RATE_ENTRIES && Burst(table, calls, ip) && NoWrap(EntryFor(table, ip), TimesOf(calls, ip))
      ensures Accepted(table, calls, ip) <= 2 * Quota()
    {
      hide RateCheck, Search, Accepted, Accepts, NoWrap, TimesOf;
      TimesOrdered(calls, ip, calls[0].now, config.window);
      SlotAlone(table, calls, ip);
      InSpan(EntryFor(table, ip), TimesOf(calls, ip), calls[0].now);
    }

    /** If the first of them opens a window, exactly min(calls, quota) are accepted, whatever
        other addresses call in between, if and only if the address calls less than 2^32 times. */
    lemma WindowInRun(table: seq<RateEntry>, calls: seq<Call>, ip: string)
      requires |table| == RATE_ENTRIES && Burst(table, calls, ip) && config.max < TWO_32
      requires Opens(EntryFor(table, ip), calls[0].now)
      ensures
        var n := |TimesOf(calls, ip)|;
        Accepted(table, calls, ip) == Least(n, Quota()) <==> n < TWO_32
    {
      hide RateCheck, Search, Accepted, Accepts, EntryFor;
      TimesOrdered(calls, ip, calls[0].now, config.window);
      SlotAlone(table, calls, ip);
      assert TimesOf(calls, ip)[0] == calls[0].now;
      WindowIff(EntryFor(table, ip), TimesOf(calls, ip));
    }

    /** And at most twice the quota if and only if it calls less than 2^32 + limit times. */
    lemma BoundInRun(table: seq<RateEntry>, calls: seq<Call>, ip: string)
      requires |table| == RATE_ENTRIES && Burst(table, calls, ip) && 1 <= config.max < TWO_32 - 1
      requires Opens(EntryFor(table, ip), calls[0].now)
      ensures Accepted(table, calls, ip) <= 2 * Quota() <==> |TimesOf(calls, ip)| < TWO_32 + config.max
    {
      hide RateCheck, Search, Accepted, Accepts, EntryFor;
      TimesOrdered(calls, ip, calls[0].now, config.window);
      SlotAlone(table, calls, ip);
      assert TimesOf(calls, ip)[0] == calls[0].now;
      WindowBoundIff(EntryFor(table, ip), TimesOf(calls, ip));
    }

    lemma {:induction false} SearchTaken(table: seq<RateEntry>, entry: RateEntry, i: nat, ip: string, p: nat)
      requires |table| == RATE_ENTRIES && p <= PROBES && Search(table, ip, hash(ip), p) == Some(i)
      requires entry.ip == ip
      ensures Search(table[i := entry], ip, hash(ip), p) == Some(i)
      decreases PROBES - p
    {
      var j := ProbeAt(hash(ip), p);
      if table[j].active && table[j].ip != ip {
        SearchTaken(table, entry, i, ip, p + 1);
      }
    }

    lemma NewSlot(table: seq<RateEntry>, c: Call, i: nat)
      requires |table| == RATE_ENTRIES && |c.ip| <= IP_MAX
      requires Search(table, c.ip, hash(c.ip), 0) == Some(i) && i < |table| && !table[i].active
      ensures After(table, c) == (table[i := RateEntry(c.ip, 1, c.now, true)], true)
      ensures Tracks(After(table, c).0, c.ip, i)
    {
      SearchTaken(table, RateEntry(c.ip, 1, c.now, true), i, c.ip, 0);
    }

    /** In a run of any length from the empty table, consider a call of `ip` and those that
        follow within one window's length, in which the address's 32-bit counter does not
        wrap. Either the address finds no slot, and all its calls are accepted, or at most
        twice the quota is. */
    lemma LimitOverRuns(calls: seq<Call>, i: nat, j: nat, ip: string)
      requires InOrder(calls) && 1 <= config.window < TWO_32 && |ip| <= IP_MAX
      requires i < j <= |calls| && calls[i].ip == ip && calls[j - 1].now < calls[i].now + config.window
      requires NoWrap(EntryFor(Run(Empty(), calls[..i]), ip), TimesOf(calls[i..j], ip))
      ensures
        var table := Run(Empty(), calls[..i]);
        var n := Accepted(table, calls[i..j], ip);
        if Search(table, ip, hash(ip), 0).None? then n == |TimesOf(calls[i..j], ip)| else n <= 2 * Quota()
    {
      hide RateCheck, Run, Accepted, TimesOf, Search, NoWrap, EntryFor;
      var table, span := Run(Empty(), calls[..i]), calls[i..j];
      assert span[0] == calls[i];
      if Search(table, ip, hash(ip), 0).None? {
        NeverLimited(table, span, ip);
      } else {
        SpanBound(table, span, ip);
      }
    }

    /** The counter cannot wrap while the address itself has called less than 2^32 - 1 times,
        however many calls of others there are. */
    lemma CounterInRun(calls: seq<Call>, i: nat, j: nat, ip: string)
      requires i <= j <= |calls| && |TimesOf(calls[..j], ip)| < TWO_32 - 1
      ensures NoWrap(EntryFor(Run(Empty(), calls[..i]), ip), TimesOf(calls[i..j], ip))
    {
      hide RateCheck, Run, TimesOf, NoWrap;
      CountAtMost(Empty(), calls[..i], ip, 0);
      assert calls[..j] == calls[..i] + calls[i..j];
      TimesAppend(calls[..i], calls[i..j], ip);
      NoWrapIf(EntryFor(Run(Empty(), calls[..i]), ip), TimesOf(calls[i..j], ip));
    }

    // ----- a run in which the counter wraps -----

    /** `n` calls of `ip` in the same second. */
    static function Flood(ip: string, now: int, n: nat): (calls: seq<Call>)
      ensures |calls| == n
    {
      seq(n, _ => Call(ip, now))
    }

    lemma {:induction false} FloodTimes(ip: string, now: int, n: nat)
      ensures TimesOf(Flood(ip, now, n), ip) == seq(n, _ => now)
    {
      if n > 0 {
        assert Flood(ip, now, n)[1..] == Flood(ip, now, n - 1);
        FloodTimes(ip, now, n - 1);
      }
    }

    /** 2^32 - 1 calls bring the counter of a new window to its end, the next one makes it
        zero, and the quota goes through a second time. */
    lemma FloodAccepts(entry: RateEntry, now: int)
      requires Opens(entry, now) && 1 <= config.max < TWO_32 - 1 && 1 <= config.window <= TWO_32
      ensures Accepts(entry, seq(TWO_32 + config.max, _ => now)) == 2 * Quota() + 1
    {
      hide Touch, Elapsed, Accepts, EntryAfter;
      var all: seq<int> := seq(TWO_32 + config.max, _ => now);
      var a: seq<int>, b: seq<int> := seq(TWO_32 - 1, _ => now), seq(config.max + 1, _ => now);
      assert all == a + b;
      AcceptsAppend(entry, a, b);
      WindowExact(entry, a);
      WindowFull(entry, a);
      AcceptsSecond(EntryAfter(entry, a), b);
    }

    /** So the bound is broken by a run from the empty table: within one second more than
        twice the quota is accepted. */
    lemma FloodBreaksLimit(ip: string, now: int)
      requires |ip| <= IP_MAX && 1 <= config.max < TWO_32 - 1 && 1 <= config.window < TWO_32
      ensures
        var calls := Flood(ip, now, TWO_32 + config.max);
        && InOrder(calls) && Search(Empty(), ip, hash(ip), 0).Some?
        && Accepted(Empty(), calls, ip) == 2 * Quota() + 1
    {
      hide RateCheck, Accepted, Accepts;
      var calls := Flood(ip, now, TWO_32 + config.max);
      assert Search(Empty(), ip, hash(ip), 0) == Some(ProbeAt(hash(ip), 0));
      SlotAlone(Empty(), calls, ip);
      FloodTimes(ip, now, TWO_32 + config.max);
      FloodAccepts(EntryFor(Empty(), ip), now);
    }

    lemma {:induction false} TimesAppend(a: seq<Call>, b: seq<Call>, ip: string)
      ensures |TimesOf(a + b, ip)| == |TimesOf(a, ip)| + |TimesOf(b, ip)|
    {
      if a == [] {
        assert a + b == b;
      } else {
        assert (a + b)[1..] == a[1..] + b;
        TimesAppend(a[1..], b, ip);
      }
    }

    /** Its slot may have been set up by a longer address that is cut to it. */
    static predicate Counts(table: seq<RateEntry>, ip: string, n: nat) {
      forall i :: 0 <= i < |table| && table[i].active && table[i].ip == ip ==> table[i].count <= n + 1
    }

    lemma {:induction false} CountAtMost(table: seq<RateEntry>, calls: seq<Call>, ip: string, n: nat)
      requires |table| == RATE_ENTRIES && Counts(table, ip, n)
      ensures Counts(Run(table, calls), ip, n + |TimesOf(calls, ip)|)
      decreases |calls|
    {
      if calls != [] {
        CountStep(table, calls[0], ip, n);
        hide RateCheck;
        CountAtMost(After(table, calls[0]).0, calls[1..], ip, if calls[0].ip == ip then n + 1 else n);
      }
    }

    lemma CountStep(table: seq<RateEntry>, c: Call, ip: string, n: nat)
      requires |table| == RATE_ENTRIES && Counts(table, ip, n)
      ensures Counts(After(table, c).0, ip, if c.ip == ip then n + 1 else n)
    {
    }

    static function Empty(): (table: seq<RateEntry>)
      ensures |table| == RATE_ENTRIES && forall i :: 0 <= i < |table| ==> table[i] == UNUSED
    {
      seq(RATE_ENTRIES, i => UNUSED)
    }

    /** An address too long for its field never finds its own slot: every call is accepted. */
    lemma {:induction false} LongAddress(table: seq<RateEntry>, ip: string, h: nat, p: nat)
      requires |table| == RATE_ENTRIES && p <= PROBES && |ip| > IP_MAX
      requires forall i :: 0 <= i < |table| && table[i].active ==> |table[i].ip| <= IP_MAX
      ensures Search(table, ip, h, p).Some? ==> !table[Search(table, ip, h, p).value].active
      decreases PROBES - p
    {
      if p < PROBES {
        LongAddress(table, ip, h, p + 1);
      }
    }

    lemma ShortStaysShort(table: seq<RateEntry>, c: Call)
      requires |table| == RATE_ENTRIES
      requires forall i :: 0 <= i < |table| && table[i].active ==> |table[i].ip| <= IP_MAX
      ensures
        var t := After(table, c).0;
        forall i :: 0 <= i < |t| && t[i].active ==> |t[i].ip| <= IP_MAX
    {
    }

    lemma {:induction false} LongNeverLimited(table: seq<RateEntry>, calls: seq<Call>, ip: string)
      requires |table| == RATE_ENTRIES && |ip| > IP_MAX
      requires forall i :: 0 <= i < |table| && table[i].active ==> |table[i].ip| <= IP_MAX
      ensures Accepted(table, calls, ip) == |TimesOf(calls, ip)|
      decreases |calls|
    {
      if calls != [] {
        hide RateCheck;
        LongAddress(table, ip, hash(ip), 0);
        if calls[0].ip == ip {
          AlwaysAccepted(table, calls[0]);
        }
        ShortStaysShort(table, calls[0]);
        LongNeverLimited(After(table, calls[0]).0, calls[1..], ip);
      }
    }
  }
}
