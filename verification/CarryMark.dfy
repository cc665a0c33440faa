/** The carry-mark scraper: table rows grouped into subjects through a pointer into a growing slice that
    a retry reuses. */
module CarryMark {
  import opened Options
  import opened Text
  import opened Retry
  import opened Recovery
  import SessionProtocol
  import SessionServer

  datatype Component = Component(name: string, markingScore: string, actualScore: string)

  /** A subject without its random identifier. */
  datatype Subject = Subject(
    code: string, section: string, course: string, creditHour: string, totalCarryMark: string,
    components: seq<Component>)

  /** The texts of the cells of a table row. */
  type Row = seq<string>

  /* ---------- What the table says ---------- */

  /** A row with a course code opens a subject. */
  predicate OpensSubject(row: Row) {
    |row| >= 6 && TrimSpace(row[0]) != ""
  }

  /** A row without a code but with a name is one component of a subject. */
  predicate IsComponent(row: Row) {
    |row| >= 6 && TrimSpace(row[0]) == "" && TrimSpace(row[2]) != ""
  }

  function SubjectIn(row: Row): Subject
    requires OpensSubject(row)
  {
    Subject(TrimSpace(row[0]), TrimSpace(row[1]), TrimSpace(row[2]), TrimSpace(row[3]), TrimSpace(row[4]), [])
  }

  function ComponentIn(row: Row): Component
    requires IsComponent(row)
  {
    Component(TrimSpace(row[2]), TrimSpace(row[3]), TrimSpace(row[4]))
  }

  /** The positions of the rows that open a subject. */
  function Heads(rows: seq<Row>): (hs: seq<nat>)
    ensures forall k :: 0 <= k < |hs| ==> hs[k] < |rows| && OpensSubject(rows[hs[k]])
  {
    if rows == [] then []
    else
      var n := |rows| - 1;
      Heads(rows[..n]) + if OpensSubject(rows[n]) then [n] else []
  }

  /** Every opening row is listed, once and in order. */
  lemma {:induction false} HeadsExactly(rows: seq<Row>)
    ensures forall i, j :: 0 <= i < j < |Heads(rows)| ==> Heads(rows)[i] < Heads(rows)[j]
    ensures forall k: nat :: k < |rows| && OpensSubject(rows[k]) ==> k in Heads(rows)
  {
    if rows != [] {
      HeadsExactly(rows[..|rows| - 1]);
    }
  }

  /** The components in the first `to` rows, from row `from` on, in order. */
  function ComponentsBetween(rows: seq<Row>, from: nat, to: nat): seq<Component>
    requires to <= |rows|
  {
    if to <= from then []
    else
      ComponentsBetween(rows, from, to - 1) + if IsComponent(rows[to - 1]) then [ComponentIn(rows[to - 1])] else []
  }

  /** The row at which subject `k` ends: the next opening row, or the end of the table. */
  function EndOf(rows: seq<Row>, k: nat): (end: nat)
    requires k < |Heads(rows)|
    ensures end <= |rows|
  {
    if k + 1 < |Heads(rows)| then Heads(rows)[k + 1] else |rows|
  }

  function SubjectAt(rows: seq<Row>, k: nat): Subject
    requires k < |Heads(rows)|
  {
    SubjectIn(rows[Heads(rows)[k]]).(components := ComponentsBetween(rows, Heads(rows)[k] + 1, EndOf(rows, k)))
  }

  /** The subjects of a table: each opening row with the component rows up to the next one.  Component
      rows before the first subject belong to none. */
  function Grouped(rows: seq<Row>): seq<Subject> {
    seq(|Heads(rows)|, k requires 0 <= k < |Heads(rows)| => SubjectAt(rows, k))
  }

  /* ---------- Row by row ---------- */

  function AddComponent(s: Subject, c: Component): Subject {
    s.(components := s.components + [c])
  }

  /** What one more row makes of the subjects. */
  function AddRow(subjects: seq<Subject>, row: Row): seq<Subject> {
    if OpensSubject(row) then subjects + [SubjectIn(row)]
    else if IsComponent(row) && subjects != [] then
      subjects[|subjects| - 1 := AddComponent(subjects[|subjects| - 1], ComponentIn(row))]
    else subjects
  }

  /** What a row of at least six cells does, cell by cell; a shorter row does nothing. */
  lemma RowFields(subjects: seq<Subject>, row: Row)
    ensures |row| < 6 ==> AddRow(subjects, row) == subjects
    ensures |row| >= 6 && TrimSpace(row[0]) != "" ==>
              AddRow(subjects, row) ==
              subjects + [Subject(code := TrimSpace(row[0]), section := TrimSpace(row[1]),
                                  course := TrimSpace(row[2]), creditHour := TrimSpace(row[3]),
                                  totalCarryMark := TrimSpace(row[4]), components := [])]
    ensures |row| >= 6 && TrimSpace(row[0]) == "" && (TrimSpace(row[2]) == "" || subjects == []) ==>
              AddRow(subjects, row) == subjects
    ensures |row| >= 6 && TrimSpace(row[0]) == "" && TrimSpace(row[2]) != "" && subjects != [] ==>
              var n := |subjects| - 1;
              var c := Component(name := TrimSpace(row[2]), markingScore := TrimSpace(row[3]),
                                 actualScore := TrimSpace(row[4]));
              AddRow(subjects, row) == subjects[..n] + [subjects[n].(components := subjects[n].components + [c])]
  {
  }

  /** The fields of each subject come from the row that opens it ... */
  lemma SubjectFields(rows: seq<Row>, k: nat)
    requires k < |Grouped(rows)|
    ensures k < |Heads(rows)| && Heads(rows)[k] < |rows| && |rows[Heads(rows)[k]]| >= 6
    ensures var s, row := Grouped(rows)[k], rows[Heads(rows)[k]];
            && s.code == TrimSpace(row[0]) && s.section == TrimSpace(row[1]) && s.course == TrimSpace(row[2])
            && s.creditHour == TrimSpace(row[3]) && s.totalCarryMark == TrimSpace(row[4])
  {
  }

  /** ... and those of each component from a row between it and the next. */
  lemma {:induction false} ComponentFields(rows: seq<Row>, from: nat, to: nat, n: nat) returns (i: nat)
    requires to <= |rows| && n < |ComponentsBetween(rows, from, to)|
    ensures from <= i < to && |rows[i]| >= 6 && TrimSpace(rows[i][0]) == "" && TrimSpace(rows[i][2]) != ""
    ensures var c := ComponentsBetween(rows, from, to)[n];
            && c.name == TrimSpace(rows[i][2]) && c.markingScore == TrimSpace(rows[i][3])
            && c.actualScore == TrimSpace(rows[i][4])
    ensures n == |ComponentsBetween(rows, from, i)|
  {
    if n < |ComponentsBetween(rows, from, to - 1)| {
      i := ComponentFields(rows, from, to - 1, n);
    } else {
      i := to - 1;
    }
  }

  lemma {:induction false} ComponentsOfPrefix(rows: seq<Row>, row: Row, from: nat, to: nat)
    requires to <= |rows|
    ensures ComponentsBetween(rows + [row], from, to) == ComponentsBetween(rows, from, to)
  {
    if from < to {
      ComponentsOfPrefix(rows, row, from, to - 1);
    }
  }

  lemma HeadsOfMore(rows: seq<Row>, row: Row)
    ensures Heads(rows + [row]) == Heads(rows) + if OpensSubject(row) then [|rows|] else []
  {
    assert (rows + [row])[..|rows|] == rows;
  }

  /** One more row leaves a subject that has ended alone, and extends the last one. */
  lemma SubjectWithMore(rows: seq<Row>, row: Row, k: nat)
    requires k < |Heads(rows)|
    ensures k < |Heads(rows + [row])|
    ensures SubjectAt(rows + [row], k) ==
            if k + 1 == |Heads(rows)| && IsComponent(row) then AddComponent(SubjectAt(rows, k), ComponentIn(row))
            else SubjectAt(rows, k)
  {
    HeadsOfMore(rows, row);
    var all := rows + [row];
    var h := Heads(rows)[k];
    ComponentsOfPrefix(rows, row, h + 1, EndOf(rows, k));
    if k + 1 == |Heads(rows)| && !OpensSubject(row) {
      assert EndOf(all, k) == EndOf(rows, k) + 1;
      assert all[|rows|] == row;
    }
  }

  /** Going through the table row by row yields the grouping. */
  lemma GroupedWithMore(rows: seq<Row>, row: Row)
    ensures Grouped(rows + [row]) == AddRow(Grouped(rows), row)
  {
    HeadsOfMore(rows, row);
    var more := Grouped(rows + [row]);
    forall k | 0 <= k < |Heads(rows)|
      ensures more[k] == AddRow(Grouped(rows), row)[k]
    {
      SubjectWithMore(rows, row, k);
    }
    if OpensSubject(row) {
      var n := |Heads(rows)|;
      assert more[n] == SubjectAt(rows + [row], n);
      assert ComponentsBetween(rows + [row], |rows| + 1, |rows| + 1) == [];
    }
  }

  /** The components of all subjects, one after the other. */
  function AllComponents(subjects: seq<Subject>): seq<Component> {
    if subjects == [] then []
    else AllComponents(subjects[..|subjects| - 1]) + subjects[|subjects| - 1].components
  }

  lemma AllComponentsWithMore(subjects: seq<Subject>, row: Row)
    ensures AllComponents(AddRow(subjects, row)) ==
            AllComponents(subjects) + if IsComponent(row) && subjects != [] then [ComponentIn(row)] else []
  {
    var n := |subjects| - 1;
    var more := AddRow(subjects, row);
    if OpensSubject(row) {
      assert more[..|subjects|] == subjects;
    } else if IsComponent(row) && subjects != [] {
      assert more[..n] == subjects[..n];
      assert subjects[n].components + [ComponentIn(row)] == more[n].components;
    }
  }

  /** From the first subject on, no component row is lost, repeated or moved. */
  lemma {:induction false} NoComponentIsLost(rows: seq<Row>)
    ensures AllComponents(Grouped(rows)) ==
            if Heads(rows) == [] then [] else ComponentsBetween(rows, Heads(rows)[0], |rows|)
  {
    if rows != [] {
      var n := |rows| - 1;
      assert rows == rows[..n] + [rows[n]];
      NoComponentIsLost(rows[..n]);
      GroupedWithMore(rows[..n], rows[n]);
      AllComponentsWithMore(Grouped(rows[..n]), rows[n]);
      HeadsOfMore(rows[..n], rows[n]);
      if Heads(rows[..n]) != [] {
        ComponentsOfPrefix(rows[..n], rows[n], Heads(rows)[0], n);
      } else if OpensSubject(rows[n]) {
        assert ComponentsBetween(rows, n, n) == [];
      }
    }
  }

  /* ---------- The session name in the scripts ---------- */

  const CONSOLE_LOG := "console.log"
  const PREFIX := "console.log(\""
  const QUOTE := "\""

  /** The text between the first `console.log("` and the next quote. */
  function ExtractSession(script: string): string {
    var idx := IndexOf(script, PREFIX);
    if idx.None? then ""
    else
      var rest := script[idx.value + |PREFIX|..];
      var end := IndexOf(rest, QUOTE);
      if end.None? then "" else rest[..end.value]
  }

  function SessionInScript(text: string): string {
    if Contains(TrimSpace(text), CONSOLE_LOG) then ExtractSession(TrimSpace(text)) else ""
  }

  /** The first session a script names. */
  function SessionIn(scripts: seq<string>): string {
    if scripts == [] then ""
    else
      var n := |scripts| - 1;
      var first := SessionIn(scripts[..n]);
      if first == "" then SessionInScript(scripts[n]) else first
  }

  /** The first script that names a session decides. */
  lemma {:induction false} FirstSessionStays(scripts: seq<string>, k: nat)
    requires k < |scripts| && forall j :: 0 <= j < k ==> SessionInScript(scripts[j]) == ""
    ensures SessionInScript(scripts[k]) != "" ==> SessionIn(scripts) == SessionInScript(scripts[k])
    ensures k == |scripts| - 1 && SessionInScript(scripts[k]) == "" ==> SessionIn(scripts) == ""
  {
    var n := |scripts| - 1;
    if k < n {
      FirstSessionStays(scripts[..n], k);
    } else if n > 0 {
      FirstSessionStays(scripts[..n], n - 1);
    }
  }

  /** A script whose first log call logs a string names it, whatever white space is around the script. */
  lemma ScriptNamesSession(text: string, before: string, session: string, after: string)
    requires TrimSpace(text) == before + "console.log(\"" + session + "\"" + after && '\"' !in session
    requires forall j :: j < |before| ==> !OccursAt(TrimSpace(text), "console.log(\"", j)
    ensures SessionInScript(text) == session
  {
    var script := TrimSpace(text);
    assert script == before + PREFIX + session + QUOTE + after;
    ExtractsLogged(before, session, after);
    assert script[|before|..|before| + |PREFIX|] == PREFIX;
    assert script[|before|..|before| + |CONSOLE_LOG|] == PREFIX[..|CONSOLE_LOG|] == CONSOLE_LOG;
    IndexOfIsFirst(script, CONSOLE_LOG);
    assert OccursAt(script, CONSOLE_LOG, |before|);
  }

  /** A logged string is extracted whole, if it has no quote and nothing is logged before it. */
  lemma ExtractsLogged(before: string, session: string, after: string)
    requires forall j :: j < |before| ==> !OccursAt(before + PREFIX + session + QUOTE + after, PREFIX, j)
    requires '\"' !in session
    ensures ExtractSession(before + PREFIX + session + QUOTE + after) == session
  {
    var script := before + PREFIX + session + QUOTE + after;
    var rest := session + QUOTE + after;
    assert script == before + PREFIX + rest;
    assert script[|before|..|before| + |PREFIX|] == PREFIX;
    IndexOfAt(script, PREFIX, |before|);
    assert script[|before| + |PREFIX|..] == rest;
    FirstQuote(session, after);
  }

  lemma FirstQuote(session: string, after: string)
    requires '\"' !in session
    ensures IndexOf(session + QUOTE + after, QUOTE) == Some(|session|)
  {
    var rest := session + QUOTE + after;
    assert rest[|session|..|session| + 1] == QUOTE;
    forall j: int | 0 <= j < |session|
      ensures !OccursAt(rest, QUOTE, j)
    {
      assert rest[j..j + 1][0] == session[j];
    }
    IndexOfAt(rest, QUOTE, |session|);
  }

  /** Conversely, what is extracted was logged, and is the first thing logged. */
  lemma ExtractedWasLogged(script: string)
    requires ExtractSession(script) != ""
    ensures exists i: nat :: LoggedAt(script, i, ExtractSession(script))
  {
    IndexOfIsFirst(script, PREFIX);
    var i := IndexOf(script, PREFIX).value;
    var rest := script[i + |PREFIX|..];
    IndexOfIsFirst(rest, QUOTE);
    var session := ExtractSession(script);
    var n := |session|;
    assert rest[n..n + 1] == QUOTE;
    forall k | 0 <= k < n
      ensures session[k] != '\"'
    {
      assert !OccursAt(rest, QUOTE, k);
      assert rest[k..k + 1] == [rest[k]];
    }
    assert LoggedAt(script, i, session);
  }

  /** The first log call of the script is at `i` and logs `session`. */
  ghost predicate LoggedAt(script: string, i: nat, session: string) {
    i + |PREFIX| + |session| < |script| && OccursAt(script, PREFIX, i) &&
    (forall j :: j < i ==> !OccursAt(script, PREFIX, j)) &&
    script[i + |PREFIX|..i + |PREFIX| + |session|] == session &&
    script[i + |PREFIX| + |session|] == '\"' && '\"' !in session
  }

  /* ---------- The accumulators ---------- */

  /** &subjects[at], in the backing array it was taken from. */
  datatype Pointer = Pointer(into: array<Subject>, at: nat)

  /** What one visit of the page sees, in the order of the callbacks, and how it ends. */
  datatype Visit = Visit(bounced: bool, scripts: seq<string>, rows: seq<Row>, err: Option<Error>)

  /** How visit number `n` of a request goes with a cookie. */
  type Site = (string, nat) -> Visit

  /** The visit of the second attempt runs with the new cookie. */
  function SecondVisit(site: Site, token: Token, relogin: Relogin): Visit {
    if relogin.NewCookie? then site(relogin.cookie, 1) else site(token.cookie, 0)
  }

  function ReportOf(visit: Visit): Report {
    if visit.err.Some? then Report(false, visit.err) else Report(visit.bounced, None)
  }

  datatype Reply = Served(session: string, subjects: seq<Subject>) | Refused(error: Error)

  class Accumulator {
    /** The backing array of the slice; its length is the capacity. */
    var backing: array<Subject>
    var len: nat
    var currentSubject: Option<Pointer>
    var session: string

    /** The slice lies within its array. */
    predicate Sliced()
      reads this
    {
      len <= backing.Length
    }

    /** The pointer, once set, is at the last live element of the present array. */
    predicate Valid()
      reads this
    {
      Sliced() && currentSubject == if len == 0 then None else Some(Pointer(backing, len - 1))
    }

    function Subjects(): seq<Subject>
      reads this, backing
      requires Sliced()
    {
      backing[..len]
    }

    constructor ()
      ensures Valid() && Subjects() == [] && session == "" && fresh(backing)
    {
      backing := new Subject[0];
      len := 0;
      currentSubject := None;
      session := "";
    }

    /** The reset at the start of an attempt; the backing array and what it holds stay. */
    method Reset()
      requires Sliced()
      modifies this
      ensures Valid() && Subjects() == [] && session == "" && backing == old(backing)
    {
      len := 0;
      currentSubject := None;
      session := "";
    }

    /** A larger array with the same live elements. */
    method Grow(capacity: nat)
      requires Sliced() && backing.Length < capacity
      modifies this`backing
      ensures fresh(backing) && backing.Length == capacity && Subjects() == old(Subjects())
    {
      var larger := new Subject[capacity](_ => Subject("", "", "", "", "", []));
      var live := backing;
      for k := 0 to len
        invariant larger[..k] == live[..k]
      {
        larger[k] := live[k];
      }
      backing := larger;
    }

    /** append(subjects, subject): in place while there is room, otherwise in a new array of whatever
        larger capacity. */
    method Append(subject: Subject)
      requires Sliced()
      modifies this`backing, this`len, backing
      ensures Sliced() && Subjects() == old(Subjects()) + [subject]
      ensures backing == old(backing) || fresh(backing)
    {
      if len == backing.Length {
        var capacity: nat := *;
        Grow(if capacity > len then capacity else len + 1);
      }
      backing[len] := subject;
      len := len + 1;
    }

    /** Writing through the pointer. */
    method AppendComponent(component: Component)
      requires Valid() && currentSubject.Some?
      modifies backing
      ensures Valid()
      ensures Subjects() == old(Subjects())[len - 1 := AddComponent(old(Subjects())[len - 1], component)]
    {
      var p := currentSubject.value;
      p.into[p.at] := AddComponent(p.into[p.at], component);
    }

    /** The row callback. */
    method HandleRow(cells: Row)
      requires Valid()
      modifies this`backing, this`len, this`currentSubject, backing
      ensures Valid() && (backing == old(backing) || fresh(backing))
      ensures Subjects() == AddRow(old(Subjects()), cells)
    {
      if |cells| < 6 {
        return;
      }
      var tds := TrimCells(cells);
      var code := tds[0];
      var name := tds[2];
      if code != "" {
        Append(Subject(code, tds[1], tds[2], tds[3], tds[4], []));
        currentSubject := Some(Pointer(backing, len - 1));
      } else if name != "" && currentSubject.Some? {
        AppendComponent(Component(name, tds[3], tds[4]));
      }
    }

    method TrimCells(cells: Row) returns (tds: seq<string>)
      ensures |tds| == |cells| && forall k :: 0 <= k < |cells| ==> tds[k] == TrimSpace(cells[k])
    {
      tds := [];
      for k := 0 to |cells|
        invariant |tds| == k && forall j :: 0 <= j < k ==> tds[j] == TrimSpace(cells[j])
      {
        tds := tds + [TrimSpace(cells[k])];
      }
    }

    /** The script callback. */
    method HandleScript(text: string)
      modifies this`session
      ensures session == if old(session) == "" then SessionInScript(text) else old(session)
    {
      var content := TrimSpace(text);
      if Contains(content, CONSOLE_LOG) {
        if session == "" {
          session := ExtractSession(content);
        }
      }
    }

    method HandleScripts(scripts: seq<string>)
      requires session == ""
      modifies this`session
      ensures session == SessionIn(scripts)
    {
      for k := 0 to |scripts|
        invariant session == SessionIn(scripts[..k])
      {
        assert scripts[..k + 1][..k] == scripts[..k];
        HandleScript(scripts[k]);
      }
      assert scripts[..|scripts|] == scripts;
    }

    method HandleRows(rows: seq<Row>)
      requires Valid() && len == 0
      modifies this`backing, this`len, this`currentSubject, backing
      ensures Valid() && (backing == old(backing) || fresh(backing))
      ensures Subjects() == Grouped(rows)
    {
      for k := 0 to |rows|
        invariant Valid() && (backing == old(backing) || fresh(backing))
        invariant Subjects() == Grouped(rows[..k])
      {
        assert rows[..k + 1] == rows[..k] + [rows[k]];
        GroupedWithMore(rows[..k], rows[k]);
        HandleRow(rows[k]);
      }
      assert rows[..|rows|] == rows;
    }

    /** One attempt.  Whatever an earlier attempt left in the accumulators and in the backing array, they
        end up with what this page says. */
    method Scrape(visit: Visit) returns (report: Report)
      requires Valid()
      modifies this, backing
      ensures Valid() && (backing == old(backing) || fresh(backing))
      ensures Subjects() == Grouped(visit.rows) && session == SessionIn(visit.scripts)
      ensures report == ReportOf(visit)
    {
      Reset();
      HandleScripts(visit.scripts);
      HandleRows(visit.rows);
      if visit.err.Some? {
        return Report(false, visit.err);
      }
      return Report(visit.bounced, None);
    }

    /** The attempts around a session refresh: the error is the verdict of the retry protocol, and the
        accumulators hold what the last page visited says, the second one with the new cookie.  The session
        is refreshed exactly when the first page bounces. */
    method ScrapeWithRetry(token: Token, site: Site, server: SessionServer.Server, aid: Aid)
        returns (err: Option<Error>, ghost relogin: Relogin, ghost minted: Option<SessionProtocol.Cookie>)
      requires Valid() && Ready(server, aid)
      modifies this, backing, server`run, server`actions, server`sessions, server.tokenManager
      ensures Valid() && (backing == old(backing) || fresh(backing))
      ensures server.Valid() && server.Continues(old(server.run))
      ensures err == Verdict(ReportOf(site(token.cookie, 0)), relogin, ReportOf(SecondVisit(site, token, relogin)))
      ensures var one := site(token.cookie, 0);
              var last := if Retries(ReportOf(one), relogin) then SecondVisit(site, token, relogin) else one;
              Subjects() == Grouped(last.rows) && session == SessionIn(last.scripts)
      ensures if ReportOf(site(token.cookie, 0)).stale
              then Recovers(server.gei, old(server.sessions), token.username, aid, old(server.actions),
                            relogin, minted)
              else server.run == old(server.run) && server.sessions == old(server.sessions) &&
                   server.tokenManager.tokens == old(server.tokenManager.tokens)
    {
      relogin, minted := LoginFails(aid.error), None;
      var report := Scrape(site(token.cookie, 0));
      if report.err.Some? {
        return report.err, relogin, minted;
      }
      if !report.stale {
        return None, relogin, minted;
      }
      var answer;
      answer, minted := RefreshFor(server, token.username, aid);
      relogin := answer;
      if answer.LoginFails? {
        return Some(answer.error), relogin, minted;
      }
      report := Scrape(site(answer.cookie, 1));
      if report.err.Some? {
        return report.err, relogin, minted;
      }
      if report.stale {
        return Some(StaleSession), relogin, minted;
      }
      return None, relogin, minted;
    }
  }

  /** The handler. */
  method CarryMarkHandler(token: Option<Token>, site: Site, server: SessionServer.Server, aid: Aid)
      returns (reply: Reply, ghost relogin: Relogin, ghost minted: Option<SessionProtocol.Cookie>)
    requires Ready(server, aid)
    modifies server`run, server`actions, server`sessions, server.tokenManager
    ensures server.Valid() && server.Continues(old(server.run))
    ensures reply == if token.None? then Refused(InvalidToken)
                     else ReplyTo(site(token.value.cookie, 0), relogin, SecondVisit(site, token.value, relogin))
    ensures token.Some? && ReportOf(site(token.value.cookie, 0)).stale ==>
              Recovers(server.gei, old(server.sessions), token.value.username, aid, old(server.actions),
                       relogin, minted)
  {
    if token.None? {
      return Refused(InvalidToken), LoginFails(aid.error), None;
    }
    var acc := new Accumulator();
    var err;
    err, relogin, minted := acc.ScrapeWithRetry(token.value, site, server, aid);
    if err.Some? {
      return Refused(err.value), relogin, minted;
    }
    if acc.len == 0 {
      return Refused(NoCarryMark), relogin, minted;
    }
    return Served(acc.session, acc.Subjects()), relogin, minted;
  }

  /** The reply for the pages of a request that carries a token. */
  function ReplyTo(one: Visit, relogin: Relogin, two: Visit): Reply {
    var err := Verdict(ReportOf(one), relogin, ReportOf(two));
    var last := if Retries(ReportOf(one), relogin) then two else one;
    if err.Some? then Refused(err.value)
    else if Grouped(last.rows) == [] then Refused(NoCarryMark)
    else Served(SessionIn(last.scripts), Grouped(last.rows))
  }

  lemma GroupsSomething(rows: seq<Row>)
    ensures Grouped(rows) != [] <==> exists k: nat :: k < |rows| && OpensSubject(rows[k])
  {
    HeadsExactly(rows);
    if Grouped(rows) != [] {
      assert OpensSubject(rows[Heads(rows)[0]]);
    }
  }

  /** The page of the deciding attempt: the second one only if the first one bounced. */
  function LastPage(one: Visit, two: Visit): Visit {
    if one.err.None? && one.bounced then two else one
  }

  /** What is refused, and with which error. */
  lemma RefusedCases(one: Visit, relogin: Relogin, two: Visit)
    ensures one.err.Some? ==> ReplyTo(one, relogin, two) == Refused(one.err.value)
    ensures one.err.None? && one.bounced && relogin.LoginFails? ==> ReplyTo(one, relogin, two) == Refused(relogin.error)
    ensures one.err.None? && one.bounced && relogin.NewCookie? && two.err.Some? ==>
              ReplyTo(one, relogin, two) == Refused(two.err.value)
    ensures one.err.None? && one.bounced && relogin.NewCookie? && two.err.None? && two.bounced ==>
              ReplyTo(one, relogin, two) == Refused(StaleSession)
    ensures one.err.None? && !one.bounced && (forall k :: 0 <= k < |one.rows| ==> !OpensSubject(one.rows[k])) ==>
              ReplyTo(one, relogin, two) == Refused(NoCarryMark)
  {
    GroupsSomething(one.rows);
  }

  /** The handler serves exactly when the last page was neither bounced nor in error and opens a
      subject, and a second page was reached with a new cookie.  It serves the grouping of that page. */
  lemma ServedIsOnePage(one: Visit, relogin: Relogin, two: Visit)
    ensures ReplyTo(one, relogin, two).Served? <==>
            && LastPage(one, two).err.None? && !LastPage(one, two).bounced
            && (one.err.None? && one.bounced ==> relogin.NewCookie?)
            && exists k: nat :: k < |LastPage(one, two).rows| && OpensSubject(LastPage(one, two).rows[k])
    ensures ReplyTo(one, relogin, two).Served? ==>
              ReplyTo(one, relogin, two) ==
              Served(SessionIn(LastPage(one, two).scripts), Grouped(LastPage(one, two).rows))
  {
    GroupsSomething(LastPage(one, two).rows);
  }
}
