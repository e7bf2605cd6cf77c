/**
 * `src/lib/security.ts`, part 1: the fixed-window rate limiter and the
 * fingerprint-based client identifier.
 *
 * The source keeps one module-level `Map` that every `RateLimit` instance
 * shares; here that map is the `entries` field of one `RateLimitStore` object,
 * and every `RateLimit` holds a reference to it. The clock (`Date.now()`) and
 * the browser signals the fingerprint reads are parameters.
 */
module RateLimiting {
  import opened Base
  import opened JsText

  // ---------------------------------------------------------------------------
  // 32-bit integer arithmetic

  const Two31: int := 0x8000_0000
  const Two32: int := 0x1_0000_0000

  /** ECMAScript ToInt32: wrap an integer into the signed 32-bit range. */
  function ToInt32(x: int): (r: int)
    ensures -Two31 <= r < Two31
  {
    (x + Two31) % Two32 - Two31
  }

  /** Integers that differ by a multiple of 2^32 wrap to the same value. */
  lemma {:induction false} ToInt32Congruent(a: int, b: int, k: int)
    requires a == b + k * Two32
    ensures ToInt32(a) == ToInt32(b)
    decreases if k < 0 then -k else k
  {
    if k > 0 {
      ToInt32Congruent(a - Two32, b, k - 1);
      assert (a + Two31) % Two32 == (a - Two32 + Two31) % Two32;
    } else if k < 0 {
      ToInt32Congruent(a + Two32, b, k + 1);
      assert (a + Two31) % Two32 == (a + Two32 + Two31) % Two32;
    }
  }

  /** What one iteration of the hash loop does, as the source writes it:
      `hash = ((hash << 5) - hash) + char; hash = hash & hash`.
      `<<` wraps its own result to 32 bits, the subtraction and addition are
      exact, and `hash & hash` wraps the sum. */
  function HashLoopStep(hash: int, unit: int): int {
    ToInt32(ToInt32(hash * 32) - hash + unit)
  }

  /** The loop step is the rolling hash `h := ToInt32(31 * h + c)`. */
  lemma HashLoopStepClosedForm(h: int, c: int)
    ensures HashLoopStep(h, c) == ToInt32(31 * h + c)
  {
    var x := h * 32;
    var q := (x + Two31) / Two32;
    assert ToInt32(x) == x - q * Two32;
    ToInt32Congruent(ToInt32(x) - h + c, 31 * h + c, -q);
  }

  /** The rolling hash of a sequence of UTF-16 code units, starting from 0. */
  function Hash(units: seq<int>): (h: int)
    ensures -Two31 <= h < Two31
  {
    if units == [] then 0 else ToInt32(31 * Hash(units[..|units| - 1]) + units[|units| - 1])
  }

  // ---------------------------------------------------------------------------
  // The fingerprint

  /** The browser signals `generateClientId` reads. */
  datatype Signals = Signals(
    userAgent: string,
    language: string,
    screenWidth: int,
    screenHeight: int,
    timezoneOffset: int,
    hardwareConcurrency: Option<int>)

  /** The `|`-joined fingerprint string; a missing (or zero) core count becomes 0. */
  function FingerprintText(s: Signals): string {
    s.userAgent + "|" + s.language + "|"
    + IntToDecimal(s.screenWidth) + "x" + IntToDecimal(s.screenHeight) + "|"
    + IntToDecimal(s.timezoneOffset) + "|"
    + IntToDecimal(s.hardwareConcurrency.GetOr(0))
  }

  function Abs(x: int): nat {
    if x < 0 then -x else x
  }

  /** The identifier for a set of signals: the decimal string of |hash|. */
  function FingerprintId(s: Signals): string {
    NatToDecimal(Abs(Hash(CodeUnits(FingerprintText(s)))))
  }

  /** The identifier is a decimal numeral for a value in [0, 2^31]. */
  lemma FingerprintIdIsBoundedNumeral(s: Signals)
    ensures forall i :: 0 <= i < |FingerprintId(s)| ==> '0' <= FingerprintId(s)[i] <= '9'
    ensures 0 <= DecimalValue(FingerprintId(s)) <= Two31
    ensures DecimalValue(FingerprintId(s)) == Abs(Hash(CodeUnits(FingerprintText(s))))
  {
    DecimalRoundTrip(Abs(Hash(CodeUnits(FingerprintText(s)))));
  }

  /** One more code unit extends the hash of a prefix. */
  lemma HashLoopExtends(units: seq<int>, i: int, hash: int)
    requires 0 <= i < |units| && hash == Hash(units[..i])
    ensures HashLoopStep(hash, units[i]) == Hash(units[..i + 1])
  {
    HashLoopStepClosedForm(hash, units[i]);
    assert units[..i + 1][..i] == units[..i];
  }

  /** `generateClientId`: the hash loop over the fingerprint's code units. */
  method GenerateClientId(signals: Signals) returns (id: string)
    ensures id == FingerprintId(signals)
  {
    var text := FingerprintText(signals);
    var units := CodeUnits(text);
    var hash := 0;
    var i := 0;
    while i < |units|
      invariant 0 <= i <= |units|
      invariant hash == Hash(units[..i])
    {
      var unit := units[i];
      ghost var before := hash;
      hash := ToInt32(hash * 32) - hash + unit;
      hash := ToInt32(hash);
      assert hash == HashLoopStep(before, unit);
      HashLoopExtends(units, i, before);
      i := i + 1;
    }
    assert units[..|units|] == units;
    id := NatToDecimal(Abs(hash));
  }

  // ---------------------------------------------------------------------------
  // The fixed-window counter

  datatype Entry = Entry(count: int, resetTime: int)

  type Table = map<string, Entry>

  /** The key `check` uses: the identifier when it is a non-empty string,
      otherwise the fingerprint. */
  function ClientId(identifier: Option<string>, signals: Signals): string {
    if Truthy(identifier) then identifier.value else FingerprintId(signals)
  }

  /** A new window starts: no entry yet, or `now` strictly after the reset time. */
  predicate OpensWindow(table: Table, id: string, now: int) {
    id !in table || now > table[id].resetTime
  }

  datatype Decision = Decision(allowed: bool, table: Table)

  /** One `check` call on the shared table. */
  function CheckStep(table: Table, id: string, now: int, maxRequests: int, windowMs: int): (d: Decision)
    ensures id in d.table
    ensures forall k :: k != id ==> (k in d.table <==> k in table)
    ensures forall k :: k != id && k in table ==> d.table[k] == table[k]
    ensures OpensWindow(table, id, now) ==> d.allowed && d.table[id] == Entry(1, now + windowMs)
    ensures !OpensWindow(table, id, now) ==> (d.allowed <==> table[id].count < maxRequests)
    ensures !OpensWindow(table, id, now) && !d.allowed ==> d.table == table
    ensures !OpensWindow(table, id, now) && d.allowed ==>
      d.table[id] == Entry(table[id].count + 1, table[id].resetTime)
  {
    if id !in table || now > table[id].resetTime then
      Decision(true, table[id := Entry(1, now + windowMs)])
    else if table[id].count >= maxRequests then
      Decision(false, table)
    else
      Decision(true, table[id := table[id].(count := table[id].count + 1)])
  }

  /** `getRemainingTime`. */
  function RemainingTime(table: Table, id: string, now: int): (ms: int)
    ensures ms >= 0
    ensures id !in table ==> ms == 0
    ensures id in table ==> ms == Max(0, table[id].resetTime - now)
  {
    if id !in table then 0 else Max(0, table[id].resetTime - now)
  }

  /** Every entry has a count between 1 and max(1, maxRequests). */
  predicate CountsBounded(table: Table, maxRequests: int) {
    forall k :: k in table ==> 1 <= table[k].count <= Max(1, maxRequests)
  }

  lemma CheckKeepsCountsBounded(table: Table, id: string, now: int, maxRequests: int, windowMs: int)
    requires CountsBounded(table, maxRequests)
    ensures CountsBounded(CheckStep(table, id, now, maxRequests, windowMs).table, maxRequests)
  {
  }

  /** The window boundary is strict: at `now == resetTime` an exhausted window
      still refuses, one millisecond later a fresh window accepts. */
  lemma ResetBoundaryIsStrict(table: Table, id: string, maxRequests: int, windowMs: int)
    requires id in table && table[id].count >= maxRequests
    ensures !CheckStep(table, id, table[id].resetTime, maxRequests, windowMs).allowed
    ensures RemainingTime(table, id, table[id].resetTime) == 0
    ensures CheckStep(table, id, table[id].resetTime + 1, maxRequests, windowMs).allowed
  {
  }

  /** A check of one key leaves every other key's cooldown and next answer alone. */
  lemma KeysAreIndependent(table: Table, a: string, b: string, now: int, later: int, maxRequests: int, windowMs: int)
    requires a != b
    ensures var t := CheckStep(table, a, now, maxRequests, windowMs).table;
      && RemainingTime(t, b, later) == RemainingTime(table, b, later)
      && CheckStep(t, b, later, maxRequests, windowMs).allowed
         == CheckStep(table, b, later, maxRequests, windowMs).allowed
  {
  }

  /** A refusal comes with the remaining cooldown of the window that refused. */
  lemma RefusalCooldown(table: Table, id: string, now: int, maxRequests: int, windowMs: int)
    requires !CheckStep(table, id, now, maxRequests, windowMs).allowed
    ensures id in table && now <= table[id].resetTime
    ensures RemainingTime(table, id, now) == table[id].resetTime - now
  {
  }

  /** The answers to a series of checks of one key at the given times. */
  function RunChecks(table: Table, id: string, times: seq<int>, maxRequests: int, windowMs: int): (answers: seq<bool>)
    ensures |answers| == |times|
    decreases |times|
  {
    if times == [] then []
    else
      var d := CheckStep(table, id, times[0], maxRequests, windowMs);
      [d.allowed] + RunChecks(d.table, id, times[1..], maxRequests, windowMs)
  }

  /** Calls made inside one window from its opening: the first max(1, maxRequests)
      are accepted and every later one is refused. There is no validation of
      maxRequests, so a limiter with maxRequests <= 0 still accepts the call
      that opens a window. */
  lemma {:induction false} BurstInsideOneWindow(table: Table, id: string, start: int, times: seq<int>, maxRequests: int, windowMs: int)
    requires OpensWindow(table, id, start)
    requires forall k :: 0 <= k < |times| ==> times[k] <= start + windowMs
    ensures forall k :: 0 <= k <= |times| ==>
      (RunChecks(table, id, [start] + times, maxRequests, windowMs)[k] <==> k < Max(1, maxRequests))
  {
    var t := CheckStep(table, id, start, maxRequests, windowMs).table;
    assert ([start] + times)[1..] == times;
    var rest := RunChecks(t, id, times, maxRequests, windowMs);
    assert RunChecks(table, id, [start] + times, maxRequests, windowMs) == [true] + rest;
    WindowContinues(t, id, start + windowMs, times, maxRequests, windowMs, 1);
  }

  /** Helper: the window that resets at `reset` and holds `count` calls goes on. */
  lemma {:induction false} WindowContinues(table: Table, id: string, reset: int, times: seq<int>, maxRequests: int, windowMs: int, count: int)
    requires id in table && table[id] == Entry(count, reset) && count >= 1
    requires forall k :: 0 <= k < |times| ==> times[k] <= reset
    ensures forall k :: 0 <= k < |times| ==>
      (RunChecks(table, id, times, maxRequests, windowMs)[k] <==> count + k < Max(1, maxRequests))
    decreases |times|
  {
    if times != [] {
      var d := CheckStep(table, id, times[0], maxRequests, windowMs);
      var rest := RunChecks(d.table, id, times[1..], maxRequests, windowMs);
      assert RunChecks(table, id, times, maxRequests, windowMs) == [d.allowed] + rest;
      if d.allowed {
        WindowContinues(d.table, id, reset, times[1..], maxRequests, windowMs, count + 1);
      } else {
        WindowContinues(d.table, id, reset, times[1..], maxRequests, windowMs, count);
      }
    }
  }

  // ---------------------------------------------------------------------------
  // The shared table and the limiter objects

  /** The module-level `rateLimitStore`. */
  class RateLimitStore {
    var entries: Table

    constructor ()
      ensures entries == map[]
    {
      entries := map[];
    }
  }

  /** `RateLimit`: its two settings, taken as given, and the shared table. */
  class RateLimit {
    const maxRequests: int
    const windowMs: int
    const store: RateLimitStore

    constructor (store: RateLimitStore, maxRequests: int := 3, windowMs: int := 60000)
      ensures this.store == store && this.maxRequests == maxRequests && this.windowMs == windowMs
    {
      this.store := store;
      this.maxRequests := maxRequests;
      this.windowMs := windowMs;
    }

    /** `check(identifier?)` at time `now`. */
    method Check(identifier: Option<string>, signals: Signals, now: int) returns (allowed: bool)
      modifies store
      ensures var d := CheckStep(old(store.entries), ClientId(identifier, signals), now, maxRequests, windowMs);
        allowed == d.allowed && store.entries == d.table
    {
      var clientId: string;
      if Truthy(identifier) {
        clientId := identifier.value;
      } else {
        clientId := GenerateClientId(signals);
      }
      if clientId !in store.entries || now > store.entries[clientId].resetTime {
        store.entries := store.entries[clientId := Entry(1, now + windowMs)];
        return true;
      }
      var entry := store.entries[clientId];
      if entry.count >= maxRequests {
        return false;
      }
      store.entries := store.entries[clientId := entry.(count := entry.count + 1)];
      return true;
    }

    /** `getRemainingTime(identifier?)` at time `now`; it only reads the table. */
    method GetRemainingTime(identifier: Option<string>, signals: Signals, now: int) returns (ms: int)
      ensures ms == RemainingTime(store.entries, ClientId(identifier, signals), now)
      ensures ms >= 0
    {
      var clientId: string;
      if Truthy(identifier) {
        clientId := identifier.value;
      } else {
        clientId := GenerateClientId(signals);
      }
      if clientId !in store.entries {
        return 0;
      }
      ms := Max(0, store.entries[clientId].resetTime - now);
    }
  }

  /** Two limiters built on the one table see each other's calls: after three
      accepted calls through one default limiter, a second default limiter
      refuses the same identifier inside the window. */
  method SharedTableScenario(signals: Signals, now: int)
  {
    var table := new RateLimitStore();
    var contact := new RateLimit(table);
    var other := new RateLimit(table);
    var id := Some("contact-form");
    var a := contact.Check(id, signals, now);
    var b := contact.Check(id, signals, now + 1);
    var c := contact.Check(id, signals, now + 2);
    assert a && b && c;
    var d := other.Check(id, signals, now + 3);
    assert !d;
    var left := other.GetRemainingTime(id, signals, now + 3);
    assert left == 60000 - 3;
  }
}

/**
 * `src/lib/security.ts`, part 2: the `sanitize` helpers that are pure string
 * functions — `removeScripts`, `email` and `name`.
 */
module Sanitize {
  import opened Base
  import opened JsText

  // ---------------------------------------------------------------------------
  // Occurrences in suffixes

  /** An occurrence in a suffix is an occurrence in the whole string. */
  lemma ContainsCISuffix(s: string, pat: string, n: int)
    requires 0 <= n <= |s| && ContainsCI(s[n..], pat)
    ensures ContainsCI(s, pat)
  {
    LowerSlice(s, n, |s|);
    var i :| 0 <= i <= |Lower(s[n..])| - |pat| && OccursAt(Lower(s[n..]), pat, i);
    assert Lower(s)[n + i..n + i + |pat|] == Lower(s[n..])[i..i + |pat|];
    assert OccursAt(Lower(s), pat, n + i);
  }

  /** With no occurrence at 0 and none in `s[1..]`, there is none at all. */
  lemma NotContainsCIStep(s: string, pat: string)
    requires s != [] && !OccursAt(Lower(s), pat, 0) && !ContainsCI(s[1..], pat)
    ensures !ContainsCI(s, pat)
  {
    LowerSlice(s, 1, |s|);
    if ContainsCI(s, pat) {
      var i :| 0 <= i <= |Lower(s)| - |pat| && OccursAt(Lower(s), pat, i);
      assert i > 0;
      assert Lower(s[1..])[i - 1..i - 1 + |pat|] == Lower(s)[i..i + |pat|];
      assert OccursAt(Lower(s[1..]), pat, i - 1);
    }
  }

  lemma ContainsCIStep(s: string, pat: string)
    requires s != [] && !OccursAt(Lower(s), pat, 0)
    ensures ContainsCI(s, pat) <==> ContainsCI(s[1..], pat)
  {
    if ContainsCI(s[1..], pat) {
      ContainsCISuffix(s, pat, 1);
    } else {
      NotContainsCIStep(s, pat);
    }
  }

  // ---------------------------------------------------------------------------
  // removeScripts, pass 1: script elements

  /** The match of `/<script\b[^<]*(?:(?!<\/script>)<[^<]*)*<\/script>/i` at the
      start of `t`, as a length. The body of that expression can consume any
      text that does not contain the closing tag, so the match runs from the
      opening `<script` (followed by a word boundary, which after the letter
      `t` is a non-word character) to the first `</script>` after it. */
  function ScriptBlockAt(t: string): (r: Option<nat>)
    ensures r.Some? ==> 16 <= r.value <= |t|
    ensures r.Some? ==> OccursAt(Lower(t), "<script", 0) && OccursAt(Lower(t), "</script>", r.value - 9)
  {
    if |t| > 7 && OccursAt(Lower(t), "<script", 0) && !IsWordChar(t[7]) then
      match IndexFrom(Lower(t), "</script>", 7)
      case None => None
      case Some(p) => Some(p + 9)
    else None
  }

  /** Some suffix of `s` starts with a complete script element. */
  predicate HasScriptBlock(s: string) {
    exists i | 0 <= i < |s| :: ScriptBlockAt(s[i..]).Some?
  }

  lemma HasScriptBlockStep(s: string)
    requires s != []
    ensures HasScriptBlock(s) <==> ScriptBlockAt(s).Some? || HasScriptBlock(s[1..])
  {
    assert s[0..] == s;
    if HasScriptBlock(s[1..]) {
      var i :| 0 <= i < |s[1..]| && ScriptBlockAt(s[1..][i..]).Some?;
      assert s[1..][i..] == s[i + 1..];
    }
    if HasScriptBlock(s) && ScriptBlockAt(s).None? {
      var i :| 0 <= i < |s| && ScriptBlockAt(s[i..]).Some?;
      assert i > 0;
      assert s[1..][i - 1..] == s[i..];
    }
  }

  /** Helper: a text that starts with a script element holds both tags. */
  lemma BlockHasTags(t: string)
    requires ScriptBlockAt(t).Some?
    ensures ContainsCI(t, "<script") && ContainsCI(t, "</script>")
  {
    var n := ScriptBlockAt(t).value;
    assert OccursAt(Lower(t), "<script", 0);
    assert OccursAt(Lower(t), "</script>", n - 9);
  }

  /** A script element needs both an opening and a closing tag. */
  lemma ScriptBlockNeedsTags(s: string)
    requires HasScriptBlock(s)
    ensures ContainsCI(s, "<script") && ContainsCI(s, "</script>")
  {
    var i :| 0 <= i < |s| && ScriptBlockAt(s[i..]).Some?;
    BlockHasTags(s[i..]);
    ContainsCISuffix(s, "<script", i);
    ContainsCISuffix(s, "</script>", i);
  }

  /** The first `replace`: every script element, scanned left to right, is removed. */
  function StripScriptBlocks(s: string): (r: string)
    ensures |r| <= |s|
    ensures r != s ==> |r| < |s|
    ensures r == s <==> !HasScriptBlock(s)
    decreases |s|
  {
    if s == [] then []
    else
      HasScriptBlockStep(s);
      assert s[0..] == s;
      match ScriptBlockAt(s)
      case Some(n) => StripScriptBlocks(s[n..])
      case None => [s[0]] + StripScriptBlocks(s[1..])
  }

  /** Text without an opening tag, or without a closing tag, is left alone. */
  lemma StripScriptBlocksNeedsBothTags(s: string)
    requires !ContainsCI(s, "<script") || !ContainsCI(s, "</script>")
    ensures StripScriptBlocks(s) == s
  {
    if HasScriptBlock(s) {
      ScriptBlockNeedsTags(s);
    }
  }

  /** An opening `<script` with no closing tag anywhere after it survives the
      first pass, together with everything that follows it, even when script
      elements before it are removed. */
  lemma UnclosedScriptKept(s: string, i: nat)
    requires OccursAt(Lower(s), "<script", i)
    requires !ContainsCI(s[i..], "</script>")
    ensures |StripScriptBlocks(s)| >= |s| - i
    ensures StripScriptBlocks(s)[|StripScriptBlocks(s)| - (|s| - i)..] == s[i..]
  {
    assert Lower(s)[i..i + 7][0] == '<';
    StripKeepsTail(s, i);
  }

  /** Helper: in the lower-cased text `L`, a closing tag that ends at `n`
      ends at or before an opening `<` after which no closing tag occurs. */
  lemma BlockEndsBefore(L: string, i: nat, n: nat)
    requires 9 <= n <= |L| && OccursAt(L, "</script>", n - 9)
    requires 0 < i < |L| && L[i] == '<'
    requires !Contains(L[i..], "</script>")
    ensures n <= i
  {
    var p := n - 9;
    if p >= i {
      OccursInSuffix(L, "</script>", p, i);
      assert false;
    } else if i < n {
      assert false;
    }
  }

  /** Helper: an occurrence at or after `i` is an occurrence in `L[i..]`. */
  lemma OccursInSuffix(L: string, pat: string, p: nat, i: nat)
    requires i <= p && OccursAt(L, pat, p)
    ensures Contains(L[i..], pat)
  {
    assert L[i..][p - i..p - i + |pat|] == L[p..p + |pat|];
    assert OccursAt(L[i..], pat, p - i);
  }

  /** Helper: the tail from a `<` that has no closing tag after it is kept.
      A closing tag has its only `<` first, so none can straddle that `<`, and
      every element removed in front of it ends before it. */
  lemma {:induction false} StripKeepsTail(s: string, i: nat)
    requires i <= |s|
    requires i < |s| ==> Lower(s)[i] == '<'
    requires !ContainsCI(s[i..], "</script>")
    ensures |StripScriptBlocks(s)| >= |s| - i
    ensures StripScriptBlocks(s)[|StripScriptBlocks(s)| - (|s| - i)..] == s[i..]
    decreases |s|, 1
  {
    if i == 0 {
      assert s[0..] == s;
      StripScriptBlocksNeedsBothTags(s);
    } else if ScriptBlockAt(s).Some? {
      KeepsTailPastBlock(s, i, ScriptBlockAt(s).value);
    } else {
      KeepsTailPastChar(s, i);
    }
  }

  /** Helper: `StripKeepsTail` where `s` starts with a script element. */
  lemma {:induction false} KeepsTailPastBlock(s: string, i: nat, n: nat)
    requires 0 < i <= |s| && ScriptBlockAt(s) == Some(n)
    requires i < |s| ==> Lower(s)[i] == '<'
    requires !ContainsCI(s[i..], "</script>")
    ensures |StripScriptBlocks(s)| >= |s| - i
    ensures StripScriptBlocks(s)[|StripScriptBlocks(s)| - (|s| - i)..] == s[i..]
    decreases |s|, 0
  {
    if i < |s| { BlockBeforeTail(s, i, n); }
    SuffixKeepsTail(s, i, n);
    StripKeepsTail(s[n..], i - n);
    TailAfterBlock(s, i, n);
  }

  /** Helper: `StripKeepsTail` where the first character of `s` is kept. */
  lemma {:induction false} KeepsTailPastChar(s: string, i: nat)
    requires 0 < i <= |s| && ScriptBlockAt(s).None?
    requires i < |s| ==> Lower(s)[i] == '<'
    requires !ContainsCI(s[i..], "</script>")
    ensures |StripScriptBlocks(s)| >= |s| - i
    ensures StripScriptBlocks(s)[|StripScriptBlocks(s)| - (|s| - i)..] == s[i..]
    decreases |s|, 0
  {
    SuffixKeepsTail(s, i, 1);
    StripKeepsTail(s[1..], i - 1);
    TailAfterChar(s, i);
  }

  /** Helper: the script element at the front of `s` ends at or before `i`. */
  lemma BlockBeforeTail(s: string, i: nat, n: nat)
    requires 0 < i < |s| && Lower(s)[i] == '<'
    requires !ContainsCI(s[i..], "</script>")
    requires ScriptBlockAt(s) == Some(n)
    ensures n <= i
  {
    LowerSlice(s, i, |s|);
    assert Lower(s)[i..] == Lower(s[i..]);
    BlockEndsBefore(Lower(s), i, n);
  }

  /** Helper: the step of `StripKeepsTail` over a removed script element. */
  lemma TailAfterBlock(s: string, i: nat, n: nat)
    requires s != [] && ScriptBlockAt(s) == Some(n) && n <= i <= |s|
    requires |StripScriptBlocks(s[n..])| >= |s| - i
    requires StripScriptBlocks(s[n..])[|StripScriptBlocks(s[n..])| - (|s| - i)..] == s[n..][i - n..]
    ensures |StripScriptBlocks(s)| >= |s| - i
    ensures StripScriptBlocks(s)[|StripScriptBlocks(s)| - (|s| - i)..] == s[i..]
  {
    assert s[n..][i - n..] == s[i..];
  }

  /** Helper: the step of `StripKeepsTail` over a kept first character. */
  lemma TailAfterChar(s: string, i: nat)
    requires s != [] && ScriptBlockAt(s).None? && 1 <= i <= |s|
    requires |StripScriptBlocks(s[1..])| >= |s| - i
    requires StripScriptBlocks(s[1..])[|StripScriptBlocks(s[1..])| - (|s| - i)..] == s[1..][i - 1..]
    ensures |StripScriptBlocks(s)| >= |s| - i
    ensures StripScriptBlocks(s)[|StripScriptBlocks(s)| - (|s| - i)..] == s[i..]
  {
    var t := StripScriptBlocks(s[1..]);
    assert StripScriptBlocks(s) == [s[0]] + t;
    assert s[1..][i - 1..] == s[i..];
    assert ([s[0]] + t)[|t| + 1 - (|s| - i)..] == t[|t| - (|s| - i)..];
  }

  /** Helper: dropping a prefix of length `k <= i` keeps the suffix from `i`
      and its first character. */
  lemma SuffixKeepsTail(s: string, i: nat, k: nat)
    requires k <= i <= |s|
    requires i < |s| ==> Lower(s)[i] == '<'
    requires !ContainsCI(s[i..], "</script>")
    ensures s[k..][i - k..] == s[i..]
    ensures i - k < |s[k..]| ==> Lower(s[k..])[i - k] == '<'
    ensures !ContainsCI(s[k..][i - k..], "</script>")
  {
    assert s[k..][i - k..] == s[i..];
    if i < |s| {
      LowerSlice(s, k, |s|);
    }
  }

  // ---------------------------------------------------------------------------
  // removeScripts, pass 2: `javascript:` anywhere, in any case

  /** A global, case-insensitive `replace` of a fixed pattern by "", scanning
      left to right and resuming after each removed match. */
  function RemoveAllCI(s: string, pat: string): (r: string)
    requires |pat| > 0
    ensures |r| <= |s|
    ensures r != s ==> |r| < |s|
    ensures r == s <==> !ContainsCI(s, pat)
    decreases |s|
  {
    if s == [] then []
    else if OccursAt(Lower(s), pat, 0) then
      assert ContainsCI(s, pat);
      RemoveAllCI(s[|pat|..], pat)
    else
      ContainsCIStep(s, pat);
      [s[0]] + RemoveAllCI(s[1..], pat)
  }

  // ---------------------------------------------------------------------------
  // removeScripts, pass 3: event-handler assignments `on\w+\s*=`

  function WordRunEnd(t: string, k: nat): (e: nat)
    requires k <= |t|
    ensures k <= e <= |t|
    ensures forall i :: k <= i < e ==> IsWordChar(t[i])
    ensures e < |t| ==> !IsWordChar(t[e])
    decreases |t| - k
  {
    if k < |t| && IsWordChar(t[k]) then WordRunEnd(t, k + 1) else k
  }

  function SpaceRunEnd(t: string, k: nat): (e: nat)
    requires k <= |t|
    ensures k <= e <= |t|
    ensures forall i :: k <= i < e ==> IsWhitespace(t[i])
    ensures e < |t| ==> !IsWhitespace(t[e])
    decreases |t| - k
  {
    if k < |t| && IsWhitespace(t[k]) then SpaceRunEnd(t, k + 1) else k
  }

  /** `t` starts with `on`, one or more word characters, optional whitespace
      and `=`, ending just before index `e`. */
  predicate HandlerShape(t: string, w: int, e: int) {
    && 2 < w <= e < |t|
    && LowerChar(t[0]) == 'o' && LowerChar(t[1]) == 'n'
    && (forall i :: 2 <= i < w ==> IsWordChar(t[i]))
    && (forall i :: w <= i < e ==> IsWhitespace(t[i]))
    && t[e] == '='
  }

  /** The match of `/on\w+\s*=/i` at the start of `t`, as a length. Word
      characters and whitespace are disjoint and `=` is neither, so the
      greedy runs decide the match without backtracking. */
  function HandlerAt(t: string): (r: Option<nat>)
    ensures r.Some? ==> 4 <= r.value <= |t| && HandlerShape(t, WordRunEnd(t, 2), r.value - 1)
  {
    if |t| >= 2 && LowerChar(t[0]) == 'o' && LowerChar(t[1]) == 'n' then
      var w := WordRunEnd(t, 2);
      var e := SpaceRunEnd(t, w);
      if w > 2 && e < |t| && t[e] == '=' then Some(e + 1) else None
    else None
  }

  /** Every handler shape at the start of `t` is the one `HandlerAt` finds. */
  lemma HandlerAtComplete(t: string, w: int, e: int)
    requires HandlerShape(t, w, e)
    ensures HandlerAt(t) == Some(e + 1)
  {
    HandlerShapeIsGreedy(t, w, e);
  }

  /** The runs in a handler shape are the greedy ones. */
  lemma HandlerShapeIsGreedy(t: string, w: int, e: int)
    requires HandlerShape(t, w, e)
    ensures w == WordRunEnd(t, 2) && e == SpaceRunEnd(t, w)
  {
    var w0 := WordRunEnd(t, 2);
    var e0 := SpaceRunEnd(t, w);
  }

  /** Some suffix of `s` starts with a handler assignment. */
  predicate HasHandler(s: string) {
    exists i | 0 <= i < |s| :: HandlerAt(s[i..]).Some?
  }

  lemma HasHandlerStep(s: string)
    requires s != []
    ensures HasHandler(s) <==> HandlerAt(s).Some? || HasHandler(s[1..])
  {
    assert s[0..] == s;
    if HasHandler(s[1..]) {
      var i :| 0 <= i < |s[1..]| && HandlerAt(s[1..][i..]).Some?;
      assert s[1..][i..] == s[i + 1..];
    }
    if HasHandler(s) && HandlerAt(s).None? {
      var i :| 0 <= i < |s| && HandlerAt(s[i..]).Some?;
      assert i > 0;
      assert s[1..][i - 1..] == s[i..];
    }
  }

  /** The third `replace`: every handler assignment is removed, left to right. */
  function StripHandlers(s: string): (r: string)
    ensures |r| <= |s|
    ensures r != s ==> |r| < |s|
    ensures r == s <==> !HasHandler(s)
    decreases |s|
  {
    if s == [] then []
    else
      HasHandlerStep(s);
      assert s[0..] == s;
      match HandlerAt(s)
      case Some(n) => StripHandlers(s[n..])
      case None => [s[0]] + StripHandlers(s[1..])
  }

  // ---------------------------------------------------------------------------
  // removeScripts

  /** `sanitize.removeScripts`: the three passes, once each, in this order. */
  function RemoveScripts(s: string): (r: string)
    ensures |r| <= |s|
    ensures r == s <==> !HasScriptBlock(s) && !ContainsCI(s, "javascript:") && !HasHandler(s)
  {
    var a := StripScriptBlocks(s);
    var b := RemoveAllCI(a, "javascript:");
    StripHandlers(b)
  }

  /** Text with no `<script`, no `javascript:` and no `on...=` in any case is
      returned unchanged. */
  lemma RemoveScriptsKeepsPlainText(s: string)
    requires !ContainsCI(s, "<script") && !ContainsCI(s, "javascript:") && !HasHandler(s)
    ensures RemoveScripts(s) == s
  {
    StripScriptBlocksNeedsBothTags(s);
  }

  // ---------------------------------------------------------------------------
  // The corrected removeScripts

  /** Text without the letter `o` holds no handler assignment. */
  lemma NoHandlerWithoutO(s: string)
    requires forall i :: 0 <= i < |s| ==> s[i] != 'o' && s[i] != 'O'
    ensures !HasHandler(s)
  {
    forall i | 0 <= i < |s| ensures HandlerAt(s[i..]).None? {
      assert s[i..][0] == s[i];
    }
  }

  /** `on`, one word character and `=` open a handler of length 4. */
  lemma ShortHandlerAt(t: string)
    requires |t| >= 4 && LowerChar(t[0]) == 'o' && LowerChar(t[1]) == 'n' && IsWordChar(t[2]) && t[3] == '='
    ensures HandlerAt(t) == Some(4)
  {
    assert WordRunEnd(t, 3) == 3;
  }

  /** The third pass on `oonx=nx=`: removing `onx=` leaves `onx=`. */
  lemma HandlerPassMerges(s: string)
    requires |s| == 8 && s[0] == 'o' && s[1] == 'o' && s[2] == 'n' && s[3] == 'x' && s[4] == '='
    requires s[5] == 'n' && s[6] == 'x' && s[7] == '='
    ensures HasHandler(StripHandlers(s))
  {
    assert HandlerAt(s).None?;
    assert StripHandlers(s) == [s[0]] + StripHandlers(s[1..]);
    ShortHandlerAt(s[1..]);
    assert s[1..][4..] == s[5..];
    var u := s[5..];
    NoHandlerWithoutO(u);
    var r := [s[0]] + u;
    assert StripHandlers(s) == r;
    ShortHandlerAt(r);
    assert r[0..] == r;
  }

  /** Removing one match can join its neighbours into a new match, so a single
      run of the passes can leave a handler assignment behind: in `oonx=nx=`
      the third pass removes `onx=` and what is left reads `onx=`. */
  lemma RemoveScriptsCanLeaveHandler()
    ensures HasHandler(RemoveScripts("oonx=nx="))
  {
    SampleFirstPasses();
    HandlerPassMerges("oonx=nx=");
  }

  lemma SampleFirstPasses()
    ensures StripScriptBlocks("oonx=nx=") == "oonx=nx="
    ensures RemoveAllCI("oonx=nx=", "javascript:") == "oonx=nx="
  {
    var s := "oonx=nx=";
    assert !ContainsCI(s, "<script") by {
      forall i | 0 <= i <= |Lower(s)| - 7 ensures !OccursAt(Lower(s), "<script", i) {
        assert Lower(s)[i..i + 7][0] == Lower(s)[i];
      }
    }
    StripScriptBlocksNeedsBothTags(s);
  }

  /** `removeScripts` repeated until nothing changes: what the single pass set
      out to guarantee. */
  function RemoveScriptsToFixpoint(s: string): (r: string)
    ensures |r| <= |s|
    ensures !HasScriptBlock(r) && !ContainsCI(r, "javascript:") && !HasHandler(r)
    ensures RemoveScripts(r) == r
    decreases |s|
  {
    var t := RemoveScripts(s);
    if t == s then s else RemoveScriptsToFixpoint(t)
  }

  /** On text the single pass already leaves clean, the two agree. */
  lemma FixpointAgreesOnPlainText(s: string)
    requires !HasScriptBlock(s) && !ContainsCI(s, "javascript:") && !HasHandler(s)
    ensures RemoveScriptsToFixpoint(s) == RemoveScripts(s) == s
  {
  }

  // ---------------------------------------------------------------------------
  // sanitize.email

  /** A character of `[^\s@]`. */
  predicate AtomChar(c: char) {
    !IsWhitespace(c) && c != '@'
  }

  /** One or more characters of `[^\s@]`. */
  predicate Atom(t: string) {
    |t| > 0 && forall i :: 0 <= i < |t| ==> AtomChar(t[i])
  }

  /** `/^[^\s@]+@[^\s@]+\.[^\s@]+$/.test(s)`: some `@` and some later `.`
      split the input into three atoms. */
  predicate EmailShape(s: string) {
    exists a, b | 0 <= a < b < |s| :: s[a] == '@' && s[b] == '.' && Atom(s[..a]) && Atom(s[a + 1..b]) && Atom(s[b + 1..])
  }

  predicate NoWhitespace(t: string) {
    forall i :: 0 <= i < |t| ==> !IsWhitespace(t[i])
  }

  /** The address reading of the same pattern: exactly one `@`, a nonempty
      local part without whitespace, and a domain without whitespace that has
      a `.` with at least one character on either side. */
  predicate Address(s: string) {
    exists a | 0 <= a < |s| :: s[a] == '@' && OnlyAt(s, a) && 0 < a && NoWhitespace(s[..a]) && Domain(s[a + 1..])
  }

  predicate OnlyAt(s: string, a: int) {
    forall j :: 0 <= j < |s| && s[j] == '@' ==> j == a
  }

  predicate Domain(d: string) {
    NoWhitespace(d) && exists b | 0 < b < |d| - 1 :: d[b] == '.'
  }

  lemma SliceIsAtom(s: string, lo: int, hi: int)
    requires 0 <= lo < hi <= |s|
    requires forall i :: lo <= i < hi ==> AtomChar(s[i])
    ensures Atom(s[lo..hi])
  {
  }

  lemma EmailShapeToAddress(s: string)
    requires EmailShape(s)
    ensures Address(s)
  {
    var a, b :| 0 <= a < b < |s| && s[a] == '@' && s[b] == '.' && Atom(s[..a]) && Atom(s[a + 1..b]) && Atom(s[b + 1..]);
    forall j | 0 <= j < |s| && j != a ensures AtomChar(s[j]) || j == b {
      if j < a {
        assert s[..a][j] == s[j];
      } else if a < j < b {
        assert s[a + 1..b][j - a - 1] == s[j];
      } else if j > b {
        assert s[b + 1..][j - b - 1] == s[j];
      }
    }
    var d := s[a + 1..];
    assert d[b - a - 1] == '.';
    assert Domain(d);
  }

  lemma AddressToEmailShape(s: string)
    requires Address(s)
    ensures EmailShape(s)
  {
    var a :| 0 <= a < |s| && s[a] == '@' && OnlyAt(s, a) && 0 < a && NoWhitespace(s[..a]) && Domain(s[a + 1..]);
    var d := s[a + 1..];
    var k :| 0 < k < |d| - 1 && d[k] == '.';
    var b := a + 1 + k;
    forall i | 0 <= i < |s| && i != a ensures AtomChar(s[i]) {
      if i < a {
        assert s[..a][i] == s[i];
      } else {
        assert d[i - a - 1] == s[i];
      }
    }
    SliceIsAtom(s, 0, a);
    SliceIsAtom(s, a + 1, b);
    SliceIsAtom(s, b + 1, |s|);
    assert s[b] == '.' && s[..a] == s[0..a] && s[b + 1..] == s[b + 1..|s|];
  }

  /** The pattern and the address reading accept the same strings. */
  lemma EmailShapeIsAddress(s: string)
    ensures EmailShape(s) <==> Address(s)
  {
    if EmailShape(s) {
      EmailShapeToAddress(s);
    }
    if Address(s) {
      AddressToEmailShape(s);
    }
  }

  /** The `dangerousPatterns` of `email`. */
  predicate EmailDangerous(s: string) {
    ContainsCI(s, "<script") || ContainsCI(s, "javascript:") || ContainsCI(s, "data:") || ContainsCI(s, "vbscript:")
  }

  /** `sanitize.email`. */
  function ValidEmail(email: string): (ok: bool)
    ensures ok <==> Address(email) && !EmailDangerous(email) && Length(email) <= 254
  {
    EmailShapeIsAddress(email);
    EmailShape(email) && !EmailDangerous(email) && Length(email) <= 254
  }

  // ---------------------------------------------------------------------------
  // sanitize.name

  /** A character of `[a-zA-Z\s'-]`. */
  predicate NameChar(c: char) {
    IsAsciiLetter(c) || IsWhitespace(c) || c == '\'' || c == '-'
  }

  /** `/^[a-zA-Z\s'-]+$/.test(s)`. */
  predicate NameChars(s: string) {
    |s| > 0 && forall i :: 0 <= i < |s| ==> NameChar(s[i])
  }

  /** `on\w+=` matches at the start of `t`. */
  predicate OnAssignAt(t: string) {
    |t| >= 2 && LowerChar(t[0]) == 'o' && LowerChar(t[1]) == 'n'
    && 2 < WordRunEnd(t, 2) < |t| && t[WordRunEnd(t, 2)] == '='
  }

  /** The `suspiciousPatterns` of `name`. */
  predicate NameSuspicious(s: string) {
    || ContainsCI(s, "<script") || ContainsCI(s, "javascript:")
    || (exists i | 0 <= i < |s| :: OnAssignAt(s[i..]))
    || ContainsCI(s, "data:") || ContainsCI(s, "vbscript:")
    || ContainsCI(s, "<iframe") || ContainsCI(s, "<object") || ContainsCI(s, "<embed")
  }

  /** A pattern with a character outside the name alphabet cannot occur in a
      string made of that alphabet. */
  lemma NameTextAvoids(s: string, pat: string, k: int)
    requires forall i :: 0 <= i < |s| ==> NameChar(s[i])
    requires 0 <= k < |pat| && !NameChar(pat[k])
    ensures !ContainsCI(s, pat)
  {
    forall i | 0 <= i <= |Lower(s)| - |pat| ensures !OccursAt(Lower(s), pat, i) {
      assert Lower(s)[i..i + |pat|][k] == Lower(s)[i + k];
    }
  }

  /** Strings of the name alphabet never look suspicious. */
  lemma NameCharsNotSuspicious(s: string)
    requires forall i :: 0 <= i < |s| ==> NameChar(s[i])
    ensures !NameSuspicious(s)
  {
    NameTextAvoids(s, "<script", 0);
    NameTextAvoids(s, "javascript:", 10);
    NameTextAvoids(s, "data:", 4);
    NameTextAvoids(s, "vbscript:", 8);
    NameTextAvoids(s, "<iframe", 0);
    NameTextAvoids(s, "<object", 0);
    NameTextAvoids(s, "<embed", 0);
    forall i | 0 <= i < |s| ensures !OnAssignAt(s[i..]) {
      var t := s[i..];
      if |t| >= 2 && 2 < WordRunEnd(t, 2) < |t| {
        assert t[WordRunEnd(t, 2)] == s[i + WordRunEnd(t, 2)];
      }
    }
  }

  /** What `name` returns, and whether it logs a suspicious input. */
  datatype NameVerdict = NameVerdict(valid: bool, logged: bool)

  /** `sanitize.name`: the result and the `suspiciousInput` log call. */
  function CheckName(name: string): (v: NameVerdict)
    ensures v.valid <==> NameChars(name) && 2 <= |name| <= 50
    ensures v.logged <==> NameSuspicious(name)
    ensures !(v.valid && v.logged)
  {
    var suspicious := NameSuspicious(name);
    var isValid := NameChars(name) && 2 <= Length(name) <= 50 && !suspicious;
    if NameChars(name) then
      NameCharsNotSuspicious(name);
      BmpLength(name);
      NameVerdict(isValid, !isValid && suspicious)
    else
      NameVerdict(isValid, !isValid && suspicious)
  }
}
