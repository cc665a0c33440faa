/** Session names and queries, the order in which sessions are listed, and the newest session. */
module Sessions {
  import opened Text
  import opened ScheduleMapping

  /* ---------- The order of session names ---------- */

  const COMMA := ", "

  /** `a` comes before `b`: more recent years first, then higher semesters; names that do not split
      into exactly two parts fall back to the order of strings. */
  predicate SortSessionNames(a: string, b: string) {
    var aParts := Split(a, COMMA);
    var bParts := Split(b, COMMA);
    if |aParts| != 2 || |bParts| != 2 then Less(a, b)
    else if aParts[1] != bParts[1] then Less(bParts[1], aParts[1])
    else Less(bParts[0], aParts[0])
  }

  predicate WellFormed(name: string) {
    |Split(name, COMMA)| == 2
  }

  /** Of two different names exactly one comes first, and no name comes before itself. */
  lemma NamesAreComparable(a: string, b: string)
    ensures !SortSessionNames(a, a)
    ensures !(SortSessionNames(a, b) && SortSessionNames(b, a))
    ensures a != b <==> SortSessionNames(a, b) || SortSessionNames(b, a)
  {
    LessIsTotal(a, b);
    LessIsTotal(a, a);
    if WellFormed(a) {
      WellFormedNameIsComparable(a, a);
      if WellFormed(b) {
        WellFormedNameIsComparable(a, b);
      }
    }
  }

  lemma WellFormedNameIsComparable(a: string, b: string)
    requires WellFormed(a) && WellFormed(b)
    ensures !(SortSessionNames(a, b) && SortSessionNames(b, a))
    ensures a != b <==> SortSessionNames(a, b) || SortSessionNames(b, a)
  {
    var x, y := Split(a, COMMA), Split(b, COMMA);
    JoinSplit(a, COMMA);
    JoinSplit(b, COMMA);
    assert x == [x[0], x[1]] && y == [y[0], y[1]];
    LessIsTotal(x[0], y[0]);
    LessIsTotal(x[1], y[1]);
  }

  /** On well-formed names the order is transitive. */
  lemma NamesAreTransitive(a: string, b: string, c: string)
    requires WellFormed(a) && WellFormed(b) && WellFormed(c)
    requires SortSessionNames(a, b) && SortSessionNames(b, c)
    ensures SortSessionNames(a, c)
  {
    var x, y, z := Split(a, COMMA), Split(b, COMMA), Split(c, COMMA);
    if x[1] != y[1] && y[1] != z[1] {
      LessIsTransitive(z[1], y[1], x[1]);
      LessIsTotal(x[1], z[1]);
    } else if x[1] == y[1] == z[1] {
      LessIsTransitive(z[0], y[0], x[0]);
    }
  }

  /* ---------- When the order works ---------- */

  /** The order is transitive on `names`, and so a strict total order on them. */
  ghost predicate OrderWorks(names: iset<string>) {
    forall a, b, c :: a in names && b in names && c in names && SortSessionNames(a, b) && SortSessionNames(b, c) ==>
      SortSessionNames(a, c)
  }

  /** The malformed name `x` lies between the sessions `b` and `a` as a string, against their order as
      sessions. */
  predicate Crosses(x: string, a: string, b: string) {
    WellFormed(a) && WellFormed(b) && !WellFormed(x) && SortSessionNames(a, b) && Less(b, x) && Less(x, a)
  }

  /** A malformed name crosses two sessions exactly when the three form a cycle. */
  lemma CrossingIsCycle(a: string, b: string, x: string)
    requires WellFormed(a) && WellFormed(b) && !WellFormed(x)
    ensures Crosses(x, a, b) <==> SortSessionNames(a, b) && SortSessionNames(b, x) && SortSessionNames(x, a)
  {
  }

  /** Two steps of the order make one, unless a malformed name crosses two sessions. */
  lemma StepsCompose(a: string, b: string, c: string)
    requires SortSessionNames(a, b) && SortSessionNames(b, c)
    ensures SortSessionNames(a, c) || Crosses(a, b, c) || Crosses(b, c, a) || Crosses(c, a, b)
  {
    NamesAreComparable(a, c);
    NamesAreComparable(a, b);
    if WellFormed(a) && WellFormed(b) && WellFormed(c) {
      NamesAreTransitive(a, b, c);
    } else if Less(a, b) && Less(b, c) {
      LessIsTransitive(a, b, c);
    }
  }

  /** For every set of names the order works if and only if no malformed name among them crosses two of
      the sessions. */
  lemma OrderWorksExactly(names: iset<string>)
    ensures OrderWorks(names) <==>
            forall a, b, x :: a in names && b in names && x in names ==> !Crosses(x, a, b)
  {
    if a, b, x :| a in names && b in names && x in names && Crosses(x, a, b) {
      NamesAreComparable(a, x);
      assert SortSessionNames(b, x);
    } else {
      forall a, b, c | a in names && b in names && c in names && SortSessionNames(a, b) && SortSessionNames(b, c)
        ensures SortSessionNames(a, c)
      {
        StepsCompose(a, b, c);
      }
    }
  }

  /** It works on the well-formed names. */
  lemma WellFormedNamesWork(names: iset<string>)
    requires forall name :: name in names ==> WellFormed(name)
    ensures OrderWorks(names)
  {
    OrderWorksExactly(names);
  }

  /** Less at `k` is not changed by what follows. */
  lemma LessWithMore(s: string, t: string, x: string, y: string, k: nat)
    requires k < |s| && k < |t| && s[..k] == t[..k] && s[k] < t[k]
    ensures Less(s, t) && Less(s + x, t + y)
  {
    LessAt(s, t, k);
    assert (s + x)[..k] == s[..k] && (t + y)[..k] == t[..k];
    LessAt(s + x, t + y, k);
  }

  /** The order of sessions: by year, then by semester. */
  lemma SessionOrder(p: string, q: string, u: string, v: string)
    requires ',' !in p && ',' !in q && ',' !in u && ',' !in v && Less(u, p) && (v == q || Less(v, q))
    ensures WellFormed(p + COMMA + q) && WellFormed(u + COMMA + v) && SortSessionNames(p + COMMA + q, u + COMMA + v)
  {
    SplitPair(p, q);
    SplitPair(u, v);
    LessIsTotal(v, q);
  }

  lemma AddedPartIsBetween(p: string, q: string, u: string, v: string, w: string, k: nat)
    requires k < |p| && k < |u| && u[..k] == p[..k] && u[k] < p[k]
    ensures Less(u + COMMA + v, u + COMMA + (v + COMMA + w)) && Less(u + COMMA + (v + COMMA + w), p + COMMA + q)
  {
    var x, more := u + COMMA + (v + COMMA + w), COMMA + w;
    LessWithMore(u, p, COMMA + (v + COMMA + w), COMMA + q, k);
    assert x == u + (COMMA + (v + COMMA + w)) && p + COMMA + q == p + (COMMA + q);
    assert x == (u + COMMA + v) + more;
    LessThanLonger(u + COMMA + v, more);
  }

  /** A name crosses two sessions if it is the older one's with a part added, and the older one has the
      lower semester. */
  lemma AddedPartCrosses(p: string, q: string, u: string, v: string, w: string, k: nat)
    requires ',' !in p && ',' !in q && ',' !in u && ',' !in v && ',' !in w
    requires k < |p| && k < |u| && u[..k] == p[..k] && u[k] < p[k] && Less(u, p) && (v == q || Less(v, q))
    ensures Crosses(u + COMMA + (v + COMMA + w), p + COMMA + q, u + COMMA + v)
  {
    SessionOrder(p, q, u, v);
    SplitTriple(u, v, w);
    AddedPartIsBetween(p, q, u, v, w, k);
  }

  /** So a year that contains a comma can make the sessions of a dropdown cyclic. */
  lemma CommaInYearCycles(a: SessionRef, b: SessionRef, w: string)
    requires PlainRef(a) && PlainRef(b) && ',' !in w && (b.ses == a.ses || Less(b.ses, a.ses))
    requires a.sem != "" && b.sem != "" && b.sem[0] < a.sem[0]
    ensures var x := SessionRef(b.ses + COMMA + w, b.sem);
            && Crosses(NameOf(x), NameOf(a), NameOf(b))
            && SortSessionNames(NameOf(a), NameOf(b)) && SortSessionNames(NameOf(b), NameOf(x))
            && SortSessionNames(NameOf(x), NameOf(a))
  {
    var x := SessionRef(b.ses + COMMA + w, b.sem);
    LessAt("Sem " + b.sem, "Sem " + a.sem, 4);
    AddedPartCrosses("Sem " + a.sem, a.ses, "Sem " + b.sem, b.ses, w, 4);
    CrossingIsCycle(NameOf(a), NameOf(b), NameOf(x));
  }

  /** For example "Sem 2, 2024/2025" comes before "Sem 1, 2023/2024", which comes before
      "Sem 1, 2023/2024, 2", which comes before "Sem 2, 2024/2025". */
  lemma RealNamesCanCycle() returns (a: SessionRef, b: SessionRef, x: SessionRef)
    ensures a == SessionRef("2024/2025", "2") && b == SessionRef("2023/2024", "1")
    ensures x == SessionRef("2023/2024, 2", "1")
    ensures SortSessionNames(NameOf(a), NameOf(b)) && SortSessionNames(NameOf(b), NameOf(x))
    ensures SortSessionNames(NameOf(x), NameOf(a))
  {
    a, b := SessionRef("2024/2025", "2"), SessionRef("2023/2024", "1");
    LessAt(b.ses, a.ses, 3);
    CommaInYearCycles(a, b, "2");
    x := SessionRef(b.ses + COMMA + "2", b.sem);
  }

  lemma {:induction false} LessThanLonger(s: string, t: string)
    requires t != ""
    ensures Less(s, s + t)
  {
    if s != "" {
      LessThanLonger(s[1..], t);
      assert (s + t)[1..] == s[1..] + t;
    }
  }

  lemma SplitTriple(p: string, q: string, r: string)
    requires ',' !in p && ',' !in q && ',' !in r
    ensures Split(p + COMMA + (q + COMMA + r), COMMA) == [p, q, r]
  {
    SplitHead(p, COMMA, q + COMMA + r);
    SplitPair(q, r);
  }

  lemma {:induction false} LessAt(a: string, b: string, k: nat)
    requires k < |a| && k < |b| && a[..k] == b[..k] && a[k] < b[k]
    ensures Less(a, b)
  {
    if k > 0 {
      assert a[0] == a[..k][0] && b[0] == b[..k][0];
      assert a[1..][..k - 1] == a[..k][1..] && b[1..][..k - 1] == b[..k][1..];
      LessAt(a[1..], b[1..], k - 1);
    }
  }

  lemma SplitPair(p: string, q: string)
    requires ',' !in p && ',' !in q
    ensures Split(p + COMMA + q, COMMA) == [p, q]
  {
    SplitHead(p, COMMA, q);
    SplitWhole(q, COMMA);
  }

  /* ---------- Names and queries of sessions ---------- */

  function BuildSessionQuery(ses: string, sem: string): string {
    "?ses=" + ses + "&sem=" + sem
  }

  function BuildSessionName(sem: string, ses: string): string {
    "Sem " + sem + COMMA + ses
  }

  /** Neither part contains a comma. */
  predicate PlainRef(r: SessionRef) {
    ',' !in r.ses && ',' !in r.sem
  }

  /** The query tells where the year ends. */
  predicate Keyed(r: SessionRef) {
    '&' !in r.ses
  }

  function QueryOf(r: SessionRef): string {
    BuildSessionQuery(r.ses, r.sem)
  }

  function NameOf(r: SessionRef): string {
    BuildSessionName(r.sem, r.ses)
  }

  /** Plain sessions have well-formed names, and different ones different names. */
  lemma PlainRefs(r: SessionRef, q: SessionRef)
    requires PlainRef(r) && PlainRef(q)
    ensures WellFormed(NameOf(r))
    ensures NameOf(r) == NameOf(q) ==> r == q
  {
    SplitPair("Sem " + r.sem, r.ses);
    SplitPair("Sem " + q.sem, q.ses);
    if NameOf(r) == NameOf(q) {
      assert ["Sem " + r.sem, r.ses] == ["Sem " + q.sem, q.ses];
      assert r.sem == ("Sem " + r.sem)[4..] && q.sem == ("Sem " + q.sem)[4..];
    }
  }

  /** Different sessions have different queries. */
  lemma KeyedRefs(r: SessionRef, q: SessionRef)
    requires Keyed(r) && Keyed(q)
    ensures QueryOf(r) == QueryOf(q) ==> r == q
  {
    if QueryOf(r) == QueryOf(q) {
      var x, y := "?ses=" + r.ses, "?ses=" + q.ses;
      SplitHead(x, "&sem=", r.sem);
      SplitHead(y, "&sem=", q.sem);
      assert QueryOf(r) == x + "&sem=" + r.sem && QueryOf(q) == y + "&sem=" + q.sem;
      assert x == Split(QueryOf(r), "&sem=")[0] == y;
      assert r.ses == x[5..] && q.ses == y[5..];
      assert r.sem == QueryOf(r)[|x| + 5..] && q.sem == QueryOf(q)[|y| + 5..];
    }
  }

  /** A query names the year and the semester, in this order. */
  lemma QueryParts(r: SessionRef)
    requires Keyed(r) && '&' !in r.sem
    ensures Split(QueryOf(r), "&sem=") == ["?ses=" + r.ses, r.sem]
  {
    SplitHead("?ses=" + r.ses, "&sem=", r.sem);
    SplitWhole(r.sem, "&sem=");
    assert QueryOf(r) == "?ses=" + r.ses + "&sem=" + r.sem;
  }

  lemma {:induction false} LessAfterPrefix(p: string, s: string, t: string)
    ensures Less(p + s, p + t) <==> Less(s, t)
  {
    if p == "" {
      assert p + s == s && p + t == t;
    } else {
      LessAfterPrefix(p[1..], s, t);
      assert (p + s)[1..] == p[1..] + s && (p + t)[1..] == p[1..] + t;
    }
  }

  /** Sessions are listed by year, the latest first, and within a year by semester, the highest first. */
  lemma YearCountsFirst(a: SessionRef, b: SessionRef)
    requires PlainRef(a) && PlainRef(b)
    ensures SortSessionNames(NameOf(a), NameOf(b)) <==>
            Less(b.ses, a.ses) || (a.ses == b.ses && Less(b.sem, a.sem))
  {
    SplitPair("Sem " + a.sem, a.ses);
    SplitPair("Sem " + b.sem, b.ses);
    LessIsTotal(a.ses, b.ses);
    LessAfterPrefix("Sem ", b.sem, a.sem);
  }

  const UNWANTED_SESSION_QUERIES: seq<string> := ["?ses=1111/1111&sem=1", "?ses=0000/0000&sem=0"]

  /** The sessions that are not placeholders, in the order of the list. */
  function Offered(all: seq<SessionRef>): seq<SessionRef> {
    if all == [] then []
    else
      var n := |all| - 1;
      Offered(all[..n]) + if QueryOf(all[n]) in UNWANTED_SESSION_QUERIES then [] else [all[n]]
  }

  function QueriesOf(refs: seq<SessionRef>): seq<string> {
    seq(|refs|, i requires 0 <= i < |refs| => QueryOf(refs[i]))
  }

  function NamesOf(refs: seq<SessionRef>): seq<string> {
    seq(|refs|, i requires 0 <= i < |refs| => NameOf(refs[i]))
  }

  method SessionsFromAllSem(all: seq<SessionRef>) returns (queries: seq<string>, names: seq<string>)
    ensures queries == QueriesOf(Offered(all)) && names == NamesOf(Offered(all))
  {
    queries, names := [], [];
    for k := 0 to |all|
      invariant queries == QueriesOf(Offered(all[..k])) && names == NamesOf(Offered(all[..k]))
    {
      assert all[..k + 1][..k] == all[..k];
      var q := BuildSessionQuery(all[k].ses, all[k].sem);
      if q in UNWANTED_SESSION_QUERIES {
        continue;
      }
      queries := queries + [q];
      names := names + [BuildSessionName(all[k].sem, all[k].ses)];
    }
    assert all[..|all|] == all;
  }

  /** What is offered is exactly what is listed and no placeholder. */
  lemma {:induction false} OfferedExactly(all: seq<SessionRef>, r: SessionRef)
    ensures r in Offered(all) <==> r in all && QueryOf(r) !in UNWANTED_SESSION_QUERIES
  {
    if all != [] {
      var n := |all| - 1;
      OfferedExactly(all[..n], r);
      assert all == all[..n] + [all[n]];
    }
  }

  /** The two placeholders are never offered. */
  lemma PlaceholdersAreDropped(all: seq<SessionRef>)
    ensures SessionRef("1111/1111", "1") !in Offered(all) && SessionRef("0000/0000", "0") !in Offered(all)
  {
    var p, q := SessionRef("1111/1111", "1"), SessionRef("0000/0000", "0");
    assert QueryOf(p) == UNWANTED_SESSION_QUERIES[0] && QueryOf(q) == UNWANTED_SESSION_QUERIES[1];
    OfferedExactly(all, p);
    OfferedExactly(all, q);
  }

  /** And it keeps the order of the list. */
  lemma {:induction false} OfferedInOrder(xs: seq<SessionRef>, ys: seq<SessionRef>)
    ensures Offered(xs + ys) == Offered(xs) + Offered(ys)
  {
    if ys == [] {
      assert xs + ys == xs;
    } else {
      var n := |ys| - 1;
      OfferedInOrder(xs, ys[..n]);
      assert (xs + ys)[..|xs + ys| - 1] == xs + ys[..n];
    }
  }

  /* ---------- The newest session ---------- */

  /** The position of the name that comes first, as one pass with the order finds it. */
  function LatestIndex(names: seq<string>): (l: nat)
    requires names != []
    ensures l < |names|
  {
    var n := |names| - 1;
    if n == 0 then 0
    else
      var l := LatestIndex(names[..n]);
      if SortSessionNames(names[n], names[l]) then n else l
  }

  method LatestSessionQuery(queries: seq<string>, names: seq<string>) returns (query: string)
    requires queries != []
    ensures query == if names == [] then queries[0]
                     else queries[LatestIndex(names[..if |queries| < |names| then |queries| else |names|])]
  {
    var latest := 0;
    var i := 1;
    while i < |queries| && i < |names|
      invariant 1 <= i && latest < |queries|
      invariant names != [] ==> i <= |names| && i <= |queries| && latest == LatestIndex(names[..i])
      invariant names == [] ==> latest == 0
    {
      assert names[..i + 1][..i] == names[..i];
      if SortSessionNames(names[i], names[latest]) {
        latest := i;
      }
      i := i + 1;
    }
    query := queries[latest];
  }

  predicate Distinct(names: seq<string>) {
    forall i, j :: 0 <= i < j < |names| ==> names[i] != names[j]
  }

  ghost predicate AllIn(names: seq<string>, universe: iset<string>) {
    forall i :: 0 <= i < |names| ==> names[i] in universe
  }

  /** `l` is the position of the name that comes before all others. */
  predicate ComesFirst(names: seq<string>, l: nat) {
    l < |names| && forall i :: 0 <= i < |names| && i != l ==> SortSessionNames(names[l], names[i])
  }

  lemma {:induction false} LatestComesFirst(names: seq<string>, universe: iset<string>)
    requires names != [] && OrderWorks(universe) && AllIn(names, universe) && Distinct(names)
    ensures ComesFirst(names, LatestIndex(names))
  {
    var n := |names| - 1;
    if n > 0 {
      LatestComesFirst(names[..n], universe);
      var l := LatestIndex(names[..n]);
      NamesAreComparable(names[l], names[n]);
      forall i | 0 <= i < n
        ensures SortSessionNames(names[n], names[l]) ==> SortSessionNames(names[n], names[i])
      {
        assert i != l ==> SortSessionNames(names[..n][l], names[..n][i]);
        assert names[n] in universe && names[l] in universe && names[i] in universe;
      }
    }
  }

  /** No name comes before the one found. */
  lemma {:induction false} NoneBeforeLatest(names: seq<string>, universe: iset<string>, i: nat)
    requires i < |names| && OrderWorks(universe) && AllIn(names, universe)
    ensures !SortSessionNames(names[i], names[LatestIndex(names)])
  {
    var n := |names| - 1;
    NamesAreComparable(names[n], names[n]);
    if n > 0 {
      var l := LatestIndex(names[..n]);
      NamesAreComparable(names[l], names[n]);
      assert names[n] in universe && names[l] in universe && names[i] in universe;
      if i < n {
        NoneBeforeLatest(names[..n], universe, i);
      }
    }
  }

  /** The query returned is that of a session with the latest year, and of the highest semester in that
      year. */
  lemma NewestHasLatestYear(refs: seq<SessionRef>, i: nat)
    requires i < |refs| && forall j :: 0 <= j < |refs| ==> PlainRef(refs[j])
    ensures var newest := refs[LatestIndex(NamesOf(refs))];
            && !Less(newest.ses, refs[i].ses)
            && (refs[i].ses == newest.ses ==> !Less(newest.sem, refs[i].sem))
            && QueriesOf(refs)[LatestIndex(NamesOf(refs))] == QueryOf(newest)
  {
    var l := LatestIndex(NamesOf(refs));
    var universe := iset name | WellFormed(name);
    forall j | 0 <= j < |refs|
      ensures NamesOf(refs)[j] in universe
    {
      PlainRefs(refs[j], refs[j]);
    }
    WellFormedNamesWork(universe);
    NoneBeforeLatest(NamesOf(refs), universe, i);
    YearCountsFirst(refs[i], refs[l]);
  }

  /* ---------- Sorting the response ---------- */

  /** One session of the response, without its random identifier. */
  datatype Response<T> = Response(sessionName: string, sessionQuery: string, schedule: seq<T>)

  ghost predicate NamesIn<T>(rs: seq<Response<T>>, universe: iset<string>) {
    forall i :: 0 <= i < |rs| ==> rs[i].sessionName in universe
  }

  predicate Ordered<T>(rs: seq<Response<T>>) {
    forall i, j :: 0 <= i < j < |rs| ==> !SortSessionNames(rs[j].sessionName, rs[i].sessionName)
  }

  /** Responses with the same name are the same response. */
  ghost predicate NamesIdentify<T>(rs: seq<Response<T>>) {
    forall i, j :: 0 <= i < |rs| && 0 <= j < |rs| && rs[i].sessionName == rs[j].sessionName ==> rs[i] == rs[j]
  }

  lemma HeadsAgree<T>(a: seq<Response<T>>, b: seq<Response<T>>)
    requires a != [] && b != [] && multiset(a) == multiset(b)
    requires NamesIdentify(a) && Ordered(a) && Ordered(b)
    ensures a[0] == b[0]
  {
    assert a[0] in multiset(a) && b[0] in multiset(b);
    var j :| 0 <= j < |a| && a[j] == b[0];
    var k :| 0 <= k < |b| && b[k] == a[0];
    NamesAreComparable(a[0].sessionName, a[j].sessionName);
    assert j > 0 ==> !SortSessionNames(a[j].sessionName, a[0].sessionName);
    assert k > 0 ==> !SortSessionNames(b[k].sessionName, b[0].sessionName);
  }

  lemma SameLength<T>(a: seq<T>, b: seq<T>)
    requires multiset(a) == multiset(b)
    ensures |a| == |b|
  {
    assert |multiset(a)| == |a| && |multiset(b)| == |b|;
  }

  lemma TailKeeps<T>(a: seq<Response<T>>)
    requires a != [] && Ordered(a)
    ensures Ordered(a[1..]) && (NamesIdentify(a) ==> NamesIdentify(a[1..]))
  {
  }

  lemma TailsMatch<T>(a: seq<T>, b: seq<T>)
    requires a != [] && b != [] && multiset(a) == multiset(b) && a[0] == b[0]
    ensures multiset(a[1..]) == multiset(b[1..])
  {
    assert a == [a[0]] + a[1..] && b == [b[0]] + b[1..];
    assert multiset(a[1..]) == multiset(a) - multiset{a[0]};
    assert multiset(b[1..]) == multiset(b) - multiset{b[0]};
  }

  /** Responses that their names identify have at most one sorted arrangement. */
  lemma {:induction false} SortedIsUnique<T>(a: seq<Response<T>>, b: seq<Response<T>>)
    requires multiset(a) == multiset(b) && NamesIdentify(a) && Ordered(a) && Ordered(b)
    ensures a == b
  {
    SameLength(a, b);
    if a != [] {
      HeadsAgree(a, b);
      TailKeeps(a);
      TailKeeps(b);
      TailsMatch(a, b);
      SortedIsUnique(a[1..], b[1..]);
      assert a == [a[0]] + a[1..] && b == [b[0]] + b[1..];
    }
  }

  /** The place of `r` in a sorted sequence. */
  function Insert<T>(r: Response<T>, rs: seq<Response<T>>): seq<Response<T>> {
    if rs == [] then [r]
    else if SortSessionNames(r.sessionName, rs[0].sessionName) then [r] + rs
    else [rs[0]] + Insert(r, rs[1..])
  }

  function Sorted<T>(rs: seq<Response<T>>): seq<Response<T>> {
    if rs == [] then [] else Insert(rs[0], Sorted(rs[1..]))
  }

  lemma {:induction false} InsertPermutes<T>(r: Response<T>, rs: seq<Response<T>>)
    ensures multiset(Insert(r, rs)) == multiset(rs) + multiset{r}
  {
    if rs != [] {
      InsertPermutes(r, rs[1..]);
      assert rs == [rs[0]] + rs[1..];
    }
  }

  lemma {:induction false} SortedPermutes<T>(rs: seq<Response<T>>)
    ensures multiset(Sorted(rs)) == multiset(rs)
  {
    if rs != [] {
      SortedPermutes(rs[1..]);
      InsertPermutes(rs[0], Sorted(rs[1..]));
      assert rs == [rs[0]] + rs[1..];
    }
  }

  lemma PermutedNamesIn<T>(a: seq<Response<T>>, b: seq<Response<T>>, universe: iset<string>)
    requires multiset(a) == multiset(b) && NamesIn(a, universe)
    ensures NamesIn(b, universe)
  {
    forall i | 0 <= i < |b|
      ensures b[i].sessionName in universe
    {
      assert b[i] in multiset(b);
      assert b[i] in a;
    }
  }

  lemma {:induction false} InsertKeepsOrder<T>(r: Response<T>, rs: seq<Response<T>>, universe: iset<string>)
    requires OrderWorks(universe) && NamesIn(rs, universe) && r.sessionName in universe && Ordered(rs)
    ensures Ordered(Insert(r, rs))
  {
    if rs != [] {
      var name := r.sessionName;
      if SortSessionNames(name, rs[0].sessionName) {
        forall j | 0 <= j < |rs|
          ensures !SortSessionNames(rs[j].sessionName, name)
        {
          NamesAreComparable(name, rs[0].sessionName);
          assert rs[j].sessionName in universe && rs[0].sessionName in universe;
        }
      } else {
        InsertKeepsOrder(r, rs[1..], universe);
        InsertPermutes(r, rs[1..]);
        var t := Insert(r, rs[1..]);
        forall j | 0 <= j < |t|
          ensures !SortSessionNames(t[j].sessionName, rs[0].sessionName)
        {
          assert t[j] in multiset(t);
          assert t[j] == r || t[j] in rs[1..];
        }
      }
    }
  }

  /** Where the order works, sorting sorts. */
  lemma {:induction false} SortedIsOrdered<T>(rs: seq<Response<T>>, universe: iset<string>)
    requires OrderWorks(universe) && NamesIn(rs, universe)
    ensures Ordered(Sorted(rs)) && NamesIn(Sorted(rs), universe)
  {
    SortedPermutes(rs);
    PermutedNamesIn(rs, Sorted(rs), universe);
    if rs != [] {
      SortedIsOrdered(rs[1..], universe);
      InsertKeepsOrder(rs[0], Sorted(rs[1..]), universe);
    }
  }

  /** The responses can be sorted at all. */
  ghost predicate HasOrder<T(!new)>(rs: seq<Response<T>>) {
    exists t :: multiset(t) == multiset(rs) && Ordered(t)
  }

  lemma BeforeInOrder<T>(t: seq<Response<T>>, i: nat, j: nat)
    requires i < |t| && j < |t| && SortSessionNames(t[i].sessionName, t[j].sessionName)
    ensures Ordered(t) ==> i <= j
  {
  }

  lemma CycleHasNoOrder<T(!new)>(a: Response<T>, b: Response<T>, c: Response<T>)
    requires SortSessionNames(a.sessionName, b.sessionName) && SortSessionNames(b.sessionName, c.sessionName)
    requires SortSessionNames(c.sessionName, a.sessionName)
    ensures !HasOrder([a, b, c])
  {
    NamesAreComparable(a.sessionName, b.sessionName);
    NamesAreComparable(b.sessionName, c.sessionName);
    NamesAreComparable(c.sessionName, a.sessionName);
    forall t: seq<Response<T>> | multiset(t) == multiset([a, b, c])
      ensures !Ordered(t)
    {
      assert a in multiset([a, b, c]) && b in multiset([a, b, c]) && c in multiset([a, b, c]);
      var i: nat, j: nat, k: nat :| i < |t| && j < |t| && k < |t| && t[i] == a && t[j] == b && t[k] == c;
      BeforeInOrder(t, i, j);
      BeforeInOrder(t, j, k);
      BeforeInOrder(t, k, i);
    }
  }

  /** Every list of sessions with names among `universe` can be sorted if and only if the order works
      there. */
  lemma SortableExactly<T(!new)>(universe: iset<string>)
    ensures OrderWorks(universe) <==> forall rs: seq<Response<T>> :: NamesIn(rs, universe) ==> HasOrder(rs)
  {
    if OrderWorks(universe) {
      forall rs: seq<Response<T>> | NamesIn(rs, universe)
        ensures HasOrder(rs)
      {
        SortedPermutes(rs);
        SortedIsOrdered(rs, universe);
      }
    } else {
      OrderWorksExactly(universe);
      var a, b, x :| a in universe && b in universe && x in universe && Crosses(x, a, b);
      CrossingIsCycle(a, b, x);
      var ra: Response<T> := Response(a, "", []);
      var rb: Response<T> := Response(b, "", []);
      var rx: Response<T> := Response(x, "", []);
      CycleHasNoOrder(ra, rb, rx);
      assert NamesIn([ra, rb, rx], universe);
    }
  }

  /** The sorted list depends only on which responses there are, not on the order they arrived in. */
  lemma SortedIsConfluent<T>(a: seq<Response<T>>, b: seq<Response<T>>, universe: iset<string>)
    requires multiset(a) == multiset(b) && OrderWorks(universe) && NamesIn(a, universe) && NamesIdentify(a)
    ensures Sorted(a) == Sorted(b)
  {
    PermutedNamesIn(a, b, universe);
    SortedPermutes(a);
    SortedPermutes(b);
    SortedIsOrdered(a, universe);
    SortedIsOrdered(b, universe);
    PermutedNamesIdentify(a, Sorted(a));
    SortedIsUnique(Sorted(a), Sorted(b));
  }

  lemma PermutedNamesIdentify<T>(a: seq<Response<T>>, b: seq<Response<T>>)
    requires multiset(a) == multiset(b) && NamesIdentify(a)
    ensures NamesIdentify(b)
  {
    forall i, j | 0 <= i < |b| && 0 <= j < |b| && b[i].sessionName == b[j].sessionName
      ensures b[i] == b[j]
    {
      assert b[i] in multiset(b) && b[j] in multiset(b);
      assert b[i] in a && b[j] in a;
    }
  }

  /** The newest session is the head of the sorted list. */
  lemma LatestIsSortedHead<T>(rs: seq<Response<T>>, names: seq<string>, universe: iset<string>)
    requires rs != [] && |names| == |rs| && Distinct(names) && OrderWorks(universe) && AllIn(names, universe)
    requires forall i :: 0 <= i < |rs| ==> rs[i].sessionName == names[i]
    ensures Sorted(rs) != [] && Sorted(rs)[0] == rs[LatestIndex(names)]
  {
    var s := Sorted(rs);
    var l := LatestIndex(names);
    LatestComesFirst(names, universe);
    SortedPermutes(rs);
    SortedIsOrdered(rs, universe);
    assert |multiset(s)| == |s| && |multiset(rs)| == |rs|;
    assert s[0] in multiset(s) && rs[l] in multiset(rs);
    assert s[0] in rs && rs[l] in s;
    var i :| 0 <= i < |rs| && rs[i] == s[0];
    var j :| 0 <= j < |s| && s[j] == rs[l];
    FirstIsBefore(names, l, i);
  }

  lemma FirstIsBefore(names: seq<string>, l: nat, i: nat)
    requires ComesFirst(names, l) && i < |names|
    ensures i == l || SortSessionNames(names[l], names[i])
  {
  }
}
