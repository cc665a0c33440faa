/** The egress relay: i-Ma'luum requests go through one of several relays in turn, all others directly. */
module Relay {
  import opened Options
  import opened Text

  const IMALUUM_HOST := "imaluum.iium.edu.my"

  /** The values of the atomic counter. */
  const WORDS: nat := 0x1_0000_0000_0000_0000

  /** The length of a list fits in an int. */
  const MAX_LEN: nat := 0x7FFF_FFFF_FFFF_FFFF

  /** A parsed URL: its text and its host without the port. */
  datatype Url = Url(text: string, host: string)

  /** What becomes of a request: the URL passed on to the base transport, or no request at all. */
  datatype Outgoing = Send(url: Url) | BadRelayUrl

  /* ---------- The list of relays ---------- */

  const SEPARATOR := ","

  /** The parts that are not blank, trimmed. */
  function NotBlank(parts: seq<string>): seq<string> {
    if parts == [] then []
    else
      var p := TrimSpace(parts[|parts| - 1]);
      NotBlank(parts[..|parts| - 1]) + if p != "" then [p] else []
  }

  function RelayPrefixes(raw: string): seq<string> {
    NotBlank(Split(raw, SEPARATOR))
  }

  method ParseRelayPrefixes(raw: string) returns (out: seq<string>)
    ensures out == RelayPrefixes(raw)
  {
    out := [];
    var parts := Split(raw, SEPARATOR);
    for k := 0 to |parts|
      invariant out == NotBlank(parts[..k])
    {
      assert parts[..k + 1][..k] == parts[..k];
      var p := TrimSpace(parts[k]);
      if p != "" {
        out := out + [p];
      }
    }
    assert parts[..|parts|] == parts;
  }

  /** A usable entry of the list. */
  predicate Clean(p: string) {
    p != "" && Trimmed(p) && SEPARATOR[0] !in p
  }

  lemma {:induction false} PiecesHaveNoComma(s: string)
    ensures forall p :: p in Split(s, SEPARATOR) ==> SEPARATOR[0] !in p
    decreases |s|
  {
    var i := IndexOf(s, SEPARATOR);
    var n := if i.Some? then i.value else |s|;
    IndexOfIsFirst(s, SEPARATOR);
    forall k | 0 <= k < n
      ensures s[..n][k] != SEPARATOR[0]
    {
      assert !OccursAt(s, SEPARATOR, k);
      assert s[k..k + 1] == [s[k]];
    }
    if i.Some? {
      PiecesHaveNoComma(s[n + 1..]);
    } else {
      assert s[..n] == s;
    }
  }

  lemma {:induction false} NotBlankIsClean(parts: seq<string>)
    requires forall p :: p in parts ==> SEPARATOR[0] !in p
    ensures forall p :: p in NotBlank(parts) ==> Clean(p)
  {
    if parts != [] {
      NotBlankIsClean(parts[..|parts| - 1]);
      TrimSpaceTrims(parts[|parts| - 1]);
    }
  }

  lemma {:induction false} CleanStays(parts: seq<string>)
    requires forall p :: p in parts ==> Clean(p)
    ensures NotBlank(parts) == parts
  {
    if parts != [] {
      var n := |parts| - 1;
      CleanStays(parts[..n]);
      TrimSpaceTrims(parts[n]);
      assert parts[n] in parts;
      assert parts == parts[..n] + [parts[n]];
    }
  }

  /** Every entry is trimmed, not blank and without a comma; and a list of such entries, joined with
      commas, is read back as it is. */
  lemma PrefixesRoundTrip(raw: string, list: seq<string>)
    ensures forall p :: p in RelayPrefixes(raw) ==> Clean(p)
    ensures (forall p :: p in list ==> Clean(p)) ==> RelayPrefixes(Join(list, SEPARATOR)) == list
  {
    PiecesHaveNoComma(raw);
    NotBlankIsClean(Split(raw, SEPARATOR));
    if forall p :: p in list ==> Clean(p) {
      if list == [] {
        SplitWhole("", SEPARATOR);
        assert NotBlank([""]) == [];
      } else {
        SplitJoin(list, SEPARATOR);
        CleanStays(list);
      }
    }
  }

  /** An entry of the list is the trim of some part, and every part that is not blank gives one. */
  lemma {:induction false} NotBlankExactly(parts: seq<string>, p: string)
    ensures p in NotBlank(parts) <==> p != "" && exists i :: 0 <= i < |parts| && TrimSpace(parts[i]) == p
  {
    if parts != [] {
      NotBlankExactly(parts[..|parts| - 1], p);
    }
  }

  /** The entries keep the order of the parts. */
  lemma {:induction false} NotBlankInOrder(xs: seq<string>, ys: seq<string>)
    ensures NotBlank(xs + ys) == NotBlank(xs) + NotBlank(ys)
  {
    if ys == [] {
      assert xs + ys == xs;
    } else {
      var n := |ys| - 1;
      NotBlankInOrder(xs, ys[..n]);
      assert (xs + ys)[..|xs + ys| - 1] == xs + ys[..n];
    }
  }

  /** `part` is `p` with white space around it. */
  ghost predicate Pads(part: string, p: string) {
    exists before: string, after: string :: AllSpace(before) && AllSpace(after) && part == before + p + after
  }

  lemma {:induction false} PaddedParts(parts: seq<string>, list: seq<string>)
    requires |parts| == |list| && forall i :: 0 <= i < |list| ==> Clean(list[i]) && Pads(parts[i], list[i])
    ensures NotBlank(parts) == list
  {
    if list != [] {
      var n := |list| - 1;
      PaddedParts(parts[..n], list[..n]);
      var before, after :| AllSpace(before) && AllSpace(after) && parts[n] == before + list[n] + after;
      TrimSpaceOfPadded(before, list[n], after);
    }
  }

  /** A list of entries with white space around each is read as the entries. */
  lemma PaddedRoundTrip(parts: seq<string>, list: seq<string>)
    requires list != [] && |parts| == |list|
    requires forall i :: 0 <= i < |list| ==> Clean(list[i]) && Pads(parts[i], list[i])
    ensures RelayPrefixes(Join(parts, SEPARATOR)) == list
  {
    forall p | p in parts
      ensures SEPARATOR[0] !in p
    {
      var i :| 0 <= i < |parts| && parts[i] == p;
      var before, after :| AllSpace(before) && AllSpace(after) && parts[i] == before + list[i] + after;
      assert forall c :: c in before || c in after ==> IsSpace(c);
    }
    SplitJoin(parts, SEPARATOR);
    PaddedParts(parts, list);
  }

  /* ---------- The relay of each request ---------- */

  /** The slot of i-Ma'luum request number `k` of a transport with `n` relays. */
  function Slot(n: nat, k: nat): nat
    requires n > 0
  {
    (k + 1) % WORDS % n
  }

  class RelayTransport {
    const prefixes: seq<string>
    /** The atomic counter, a 64-bit word. */
    var next: nat
    /** The slots used so far. */
    ghost var used: seq<nat>

    ghost predicate Valid()
      reads this
    {
      0 < |prefixes| <= MAX_LEN && next == |used| % WORDS &&
      forall k :: 0 <= k < |used| ==> used[k] == Slot(|prefixes|, k)
    }

    constructor (prefixes: seq<string>)
      requires 0 < |prefixes| <= MAX_LEN
      ensures Valid() && this.prefixes == prefixes && used == []
    {
      this.prefixes := prefixes;
      this.next := 0;
      this.used := [];
    }

    /** A request to another host passes through and does not touch the counter.  A request to
        i-Ma'luum takes the next slot, even if its relay URL turns out not to parse. */
    method RoundTrip(url: Url, parse: string -> Option<Url>) returns (sent: Outgoing)
      requires Valid()
      modifies this
      ensures Valid()
      ensures url.host != IMALUUM_HOST ==> sent == Send(url) && used == old(used) && next == old(next)
      ensures url.host == IMALUUM_HOST ==>
                && |used| == |old(used)| + 1 && used[..|old(used)|] == old(used)
                && next == (old(next) + 1) % WORDS && used[|old(used)|] == next % |prefixes|
                && var relayed := parse(prefixes[used[|old(used)|]] + url.text);
                   sent == if relayed.Some? then Send(relayed.value) else BadRelayUrl
    {
      if url.host != IMALUUM_HOST {
        return Send(url);
      }
      next := (next + 1) % WORDS;
      AddWraps(|used|);
      used := used + [Slot(|prefixes|, |used|)];
      var prefix := prefixes[next % |prefixes|];
      var relayed := parse(prefix + url.text);
      if relayed.None? {
        return BadRelayUrl;
      }
      return Send(relayed.value);
    }
  }

  lemma AddWraps(k: nat)
    ensures (k % WORDS + 1) % WORDS == (k + 1) % WORDS
  {
    assert k == k / WORDS * WORDS + k % WORDS;
  }

  /** The transport without a usable relay is the base transport. */
  method NewImaluumRelay(raw: string) returns (t: Option<RelayTransport>)
    requires |RelayPrefixes(raw)| <= MAX_LEN
    ensures t.None? <==> RelayPrefixes(raw) == []
    ensures t.Some? ==> fresh(t.value) && t.value.Valid() && t.value.used == []
    ensures t.Some? ==> t.value.prefixes == RelayPrefixes(raw)
  {
    var prefixes := ParseRelayPrefixes(raw);
    if prefixes == [] {
      return None;
    }
    var relay := new RelayTransport(prefixes);
    t := Some(relay);
  }

  /* ---------- Balance ---------- */

  /** How many of the requests `from` .. `from + count` use a slot. */
  function Uses(n: nat, slot: nat, from: nat, count: nat): nat
    requires n > 0
  {
    if count == 0 then 0
    else Uses(n, slot, from, count - 1) + if Slot(n, from + count - 1) == slot then 1 else 0
  }

  /** How many of the numbers below `x` leave the remainder `slot`. */
  function Below(n: nat, slot: nat, x: nat): nat
    requires slot < n
  {
    (x + n - 1 - slot) / n
  }

  lemma NextBelow(n: nat, slot: nat, x: nat)
    requires slot < n
    ensures Below(n, slot, x + 1) == Below(n, slot, x) + if x % n == slot then 1 else 0
  {
    var q, r := x / n, x % n;
    assert x == q * n + r;
    Quotient(n, q, r + n - 1 - slot, x + n - 1 - slot);
    Quotient(n, q, r + n - slot, x + n - slot);
  }

  lemma Quotient(n: nat, q: nat, r: nat, x: nat)
    requires n > 0 && x == q * n + r && r < 2 * n
    ensures x / n == q + if r < n then 0 else 1
  {
    var d := if r < n then 0 else 1;
    var rest := r - d * n;
    assert x == (q + d) * n + rest;
    QuotientIs(n, q + d, rest, x);
  }

  lemma QuotientIs(n: nat, q: nat, r: nat, x: nat)
    requires r < n && x == q * n + r
    ensures x / n == q && x % n == r
  {
    var d := x / n - q;
    assert d * n == r - x % n;
    Multiple(n, d);
  }

  lemma Multiple(n: int, d: int)
    requires n > 0
    ensures d >= 1 ==> d * n >= n
    ensures d <= -1 ==> d * n <= -n
  {
  }

  /** The counter does not wrap within the window. */
  predicate NoWrap(from: nat, count: nat) {
    (from + 1) % WORDS + count <= WORDS
  }

  lemma {:induction false} UsesIsBelow(n: nat, slot: nat, from: nat, count: nat)
    requires slot < n && NoWrap(from, count)
    ensures var x := (from + 1) % WORDS;
            Uses(n, slot, from, count) == Below(n, slot, x + count) - Below(n, slot, x)
  {
    if count > 0 {
      var x := (from + 1) % WORDS;
      UsesIsBelow(n, slot, from, count - 1);
      NextBelow(n, slot, x + count - 1);
      Shift(from + 1, count - 1);
    }
  }

  lemma Shift(y: nat, d: nat)
    requires y % WORDS + d < WORDS
    ensures (y + d) % WORDS == y % WORDS + d
  {
    QuotientIs(WORDS, y / WORDS, y % WORDS + d, y + d);
  }

  lemma SumOfQuotients(n: nat, a: nat, count: nat)
    requires n > 0
    ensures (a + count) / n == a / n + count / n + if a % n + count % n < n then 0 else 1
  {
    var q := a / n + count / n;
    assert q * n == a / n * n + count / n * n;
    Quotient(n, q, a % n + count % n, a + count);
  }

  /** In a window without wrap each relay gets its share of the requests, up to one. */
  lemma FairShare(n: nat, slot: nat, from: nat, count: nat)
    requires slot < n && NoWrap(from, count)
    ensures Uses(n, slot, from, count) == count / n || (count % n > 0 && Uses(n, slot, from, count) == count / n + 1)
  {
    UsesIsBelow(n, slot, from, count);
    SumOfQuotients(n, (from + 1) % WORDS + n - 1 - slot, count);
  }

  /** So any two relays differ by at most one, and over a whole number of rounds not at all. */
  lemma RoundRobinIsBalanced(n: nat, a: nat, b: nat, from: nat, count: nat)
    requires a < n && b < n && NoWrap(from, count)
    ensures -1 <= Uses(n, a, from, count) - Uses(n, b, from, count) <= 1
    ensures count % n == 0 ==> Uses(n, a, from, count) == count / n
  {
    FairShare(n, a, from, count);
    FairShare(n, b, from, count);
  }

  /** How often a slot occurs. */
  function CountIn(slots: seq<nat>, slot: nat): nat {
    if slots == [] then 0
    else CountIn(slots[..|slots| - 1], slot) + if slots[|slots| - 1] == slot then 1 else 0
  }

  lemma {:induction false} UsesAreCounted(n: nat, used: seq<nat>, slot: nat, from: nat, count: nat)
    requires n > 0 && from + count <= |used| && forall k :: 0 <= k < |used| ==> used[k] == Slot(n, k)
    ensures CountIn(used[from..from + count], slot) == Uses(n, slot, from, count)
  {
    if count > 0 {
      UsesAreCounted(n, used, slot, from, count - 1);
      var window := used[from..from + count];
      assert window[..count - 1] == used[from..from + count - 1];
    }
  }

  /** So whatever requests a transport has served, to i-Ma'luum and to other hosts, in any window of its
      i-Ma'luum requests without wrap any two of its relays differ by at most one. */
  lemma TransportIsBalanced(t: RelayTransport, a: nat, b: nat, from: nat, count: nat)
    requires t.Valid() && a < |t.prefixes| && b < |t.prefixes| && from + count <= |t.used| && NoWrap(from, count)
    ensures -1 <= CountIn(t.used[from..from + count], a) - CountIn(t.used[from..from + count], b) <= 1
    ensures count % |t.prefixes| == 0 ==> CountIn(t.used[from..from + count], a) == count / |t.prefixes|
  {
    UsesAreCounted(|t.prefixes|, t.used, a, from, count);
    UsesAreCounted(|t.prefixes|, t.used, b, from, count);
    RoundRobinIsBalanced(|t.prefixes|, a, b, from, count);
  }

  lemma {:induction false} Unused(n: nat, slot: nat, from: nat, count: nat)
    requires n > 0 && forall k :: from <= k < from + count ==> Slot(n, k) != slot
    ensures Uses(n, slot, from, count) == 0
  {
    if count > 0 {
      Unused(n, slot, from, count - 1);
    }
  }

  /** Where the counter wraps, the last relay misses a round unless the rounds divide the counter's
      range. */
  lemma LastRelayMissesRound(n: nat)
    requires 0 < n <= MAX_LEN && WORDS % n != 0
    ensures Uses(n, n - 1, WORDS - 2, n) == 0
  {
    forall k | WORDS - 2 <= k < WORDS - 2 + n
      ensures Slot(n, k) != n - 1
    {
      if k == WORDS - 2 {
        NextRemainder(n, WORDS - 1);
        assert (k + 1) % WORDS == WORDS - 1;
      } else {
        assert (k + 1) % WORDS == k + 1 - WORDS;
      }
    }
    Unused(n, n - 1, WORDS - 2, n);
  }

  lemma NextRemainder(n: nat, x: nat)
    requires n > 0
    ensures x % n == n - 1 ==> (x + 1) % n == 0
  {
    if x % n == n - 1 {
      QuotientIs(n, x / n + 1, 0, x + 1);
    }
  }

  lemma {:induction false} UsesWithoutWords(n: nat, slot: nat, from: nat, count: nat)
    requires slot < n && WORDS % n == 0
    ensures Uses(n, slot, from, count) == Below(n, slot, from + 1 + count) - Below(n, slot, from + 1)
  {
    if count > 0 {
      UsesWithoutWords(n, slot, from, count - 1);
      NextBelow(n, slot, from + count);
      WrapKeepsSlot(n, from + count);
    }
  }

  lemma WrapKeepsSlot(n: nat, y: nat)
    requires n > 0 && WORDS % n == 0
    ensures y % WORDS % n == y % n
  {
    var q, r, m := y / WORDS, y % WORDS, WORDS / n;
    assert WORDS == m * n;
    assert y == q * (m * n) + r;
    assert q * (m * n) == (q * m) * n;
    assert r == r / n * n + r % n;
    assert y == (q * m + r / n) * n + r % n;
    QuotientIs(n, q * m + r / n, r % n, y);
  }

  lemma OneRoundMore(n: nat, a: nat)
    requires n > 0
    ensures (a + n) / n == a / n + 1
  {
    QuotientIs(n, a / n + 1, a % n, a + n);
  }

  lemma EachRoundUsesAll(n: nat, slot: nat, from: nat)
    requires slot < n && WORDS % n == 0
    ensures Uses(n, slot, from, n) == 1
  {
    UsesWithoutWords(n, slot, from, n);
    OneRoundMore(n, from + n - slot);
  }

  /** Every round, wherever it starts, uses every relay exactly once if and only if the number of relays
      divides the range of the counter. */
  lemma BalancedForeverExactly(n: nat)
    requires 0 < n <= MAX_LEN
    ensures (forall slot, from :: 0 <= slot < n && 0 <= from ==> Uses(n, slot, from, n) == 1) <==> WORDS % n == 0
  {
    if WORDS % n == 0 {
      forall slot, from | 0 <= slot < n && 0 <= from
        ensures Uses(n, slot, from, n) == 1
      {
        EachRoundUsesAll(n, slot, from);
      }
    } else {
      LastRelayMissesRound(n);
    }
  }
}
