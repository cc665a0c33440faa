/** From the raw payload of the schedule page to the public schedule: weekdays, times, subjects. */
module ScheduleMapping {
  import opened Options
  import opened Text

  /* ---------- Weekdays ---------- */

  const DAY_MAP: map<string, seq<string>> := map[
    "MTW" := ["M", "T", "W"],
    "TWTH" := ["T", "W", "TH"],
    "MTWTH" := ["M", "T", "W", "TH"],
    "MTWTHF" := ["M", "T", "W", "TH", "F"]]

  /** The codes of Sunday to Saturday. */
  const DAY_CODES: seq<string> := ["SUN", "M", "T", "W", "TH", "F", "SAT"]

  function ParseDays(dayStr: string): seq<string> {
    var cleaned := ReplaceAll(dayStr, " ", "");
    if cleaned in DAY_MAP then DAY_MAP[cleaned] else Split(cleaned, "-")
  }

  function GetScheduleDays(day: string): nat {
    if Contains(day, "SUN") then 0
    else if Contains(day, "MON") || day == "M" then 1
    else if Contains(day, "TUE") || day == "T" then 2
    else if Contains(day, "WED") || day == "W" then 3
    else if Contains(day, "THUR") || day == "TH" then 4
    else if Contains(day, "FRI") || day == "F" then 5
    else if Contains(day, "SAT") then 6
    else 7
  }

  const DAY_NAMES: seq<string> := ["SUN", "MON", "TUE", "WED", "THUR", "FRI", "SAT"]

  /** The text names weekday `d`: it contains its name or is its code. */
  predicate Means(day: string, d: nat) {
    d < 7 && (Contains(day, DAY_NAMES[d]) || day == DAY_CODES[d])
  }

  lemma ContainsItself(s: string)
    ensures Contains(s, s)
  {
  }

  /** The weekday read from a text is the first one that it names, and 7 if it names none. */
  lemma FirstDayNamed(day: string)
    ensures var d := GetScheduleDays(day); (d < 7 ==> Means(day, d)) && d <= 7
    ensures forall e :: Means(day, e) ==> GetScheduleDays(day) <= e
  {
    ContainsItself("SUN");
    ContainsItself("SAT");
  }

  function DaysOf(dayStr: string): seq<nat> {
    var codes := ParseDays(dayStr);
    seq(|codes|, i requires 0 <= i < |codes| => GetScheduleDays(codes[i]))
  }

  predicate Weekdays(ds: seq<nat>) {
    forall i :: 0 <= i < |ds| ==> ds[i] < 7
  }

  function Codes(ds: seq<nat>): seq<string>
    requires Weekdays(ds)
  {
    seq(|ds|, i requires 0 <= i < |ds| => DAY_CODES[ds[i]])
  }

  lemma DayOfCode(d: nat)
    requires d < 7
    ensures GetScheduleDays(DAY_CODES[d]) == d
  {
    var code := DAY_CODES[d];
    if |code| == 3 {
      ContainsSameLength(code, "SUN");
      ContainsSameLength(code, "MON");
      ContainsSameLength(code, "TUE");
      ContainsSameLength(code, "WED");
      ContainsSameLength(code, "FRI");
      ContainsSameLength(code, "SAT");
    }
  }

  lemma {:induction false} RemovingAbsent(s: string)
    requires ' ' !in s
    ensures ReplaceAll(s, " ", "") == s
  {
    if s != "" {
      RemovingAbsent(s[1..]);
      assert s == [s[0]] + s[1..];
    }
  }

  lemma {:induction false} SpacesAreRemoved(s: string)
    ensures ' ' !in ReplaceAll(s, " ", "")
  {
    if s != "" {
      SpacesAreRemoved(s[1..]);
    }
  }

  /** Codes contain neither a space nor a dash. */
  lemma {:induction false} JoinedCodes(parts: seq<string>)
    requires forall p :: p in parts ==> p in DAY_CODES
    ensures ' ' !in Join(parts, "-")
    ensures |parts| > 1 ==> '-' in Join(parts, "-")
  {
    if |parts| > 1 {
      assert parts[0] in parts;
      JoinedCodes(parts[1..]);
      assert Join(parts, "-")[|parts[0]|] == '-';
    } else if |parts| == 1 {
      assert parts[0] in parts;
    }
  }

  lemma NoMapKey(parts: seq<string>)
    requires parts != [] && forall p :: p in parts ==> p in DAY_CODES
    ensures Join(parts, "-") !in DAY_MAP
  {
    JoinedCodes(parts);
    if |parts| == 1 {
      assert parts[0] in parts;
    }
  }

  lemma ParseDaysOfCodes(parts: seq<string>)
    requires parts != [] && forall p :: p in parts ==> p in DAY_CODES
    ensures ParseDays(Join(parts, "-")) == parts
  {
    JoinedCodes(parts);
    RemovingAbsent(Join(parts, "-"));
    SplitJoin(parts, "-");
    NoMapKey(parts);
  }

  lemma DaysOfCodes(ds: seq<nat>, dayStr: string)
    requires Weekdays(ds) && ParseDays(dayStr) == Codes(ds)
    ensures DaysOf(dayStr) == ds
  {
    forall i | 0 <= i < |ds|
      ensures GetScheduleDays(Codes(ds)[i]) == ds[i]
    {
      DayOfCode(ds[i]);
    }
  }

  /** A non-empty list of weekdays survives being written as codes joined with dashes. */
  lemma DaysRoundTrip(ds: seq<nat>)
    requires ds != [] && Weekdays(ds)
    ensures DaysOf(Join(Codes(ds), "-")) == ds
  {
    ParseDaysOfCodes(Codes(ds));
    DaysOfCodes(ds, Join(Codes(ds), "-"));
  }

  /** The four compact codes are their days' codes written together. */
  lemma CompactKeys()
    ensures DAY_MAP.Keys == {"MTW", "TWTH", "MTWTH", "MTWTHF"}
    ensures forall key :: key in DAY_MAP ==>
              Join(DAY_MAP[key], "") == key && forall code :: code in DAY_MAP[key] ==> code in DAY_CODES
  {
    JoinThree("M", "T", "W");
    JoinThree("T", "W", "TH");
    JoinMore("M", ["T", "W", "TH"]);
    JoinMore("T", ["W", "TH", "F"]);
    JoinThree("W", "TH", "F");
    JoinMore("M", ["T", "W", "TH", "F"]);
  }

  lemma JoinMore(code: string, codes: seq<string>)
    requires codes != []
    ensures Join([code] + codes, "") == code + Join(codes, "")
  {
    assert ([code] + codes)[1..] == codes;
  }

  lemma JoinThree(a: string, b: string, c: string)
    ensures Join([a, b, c], "") == a + b + c
  {
    JoinMore(a, [b, c]);
    JoinMore(b, [c]);
    assert [a] + [b, c] == [a, b, c] && [b] + [c] == [b, c];
    assert Join([c], "") == c;
  }

  /** A compact code means the same as its dashed spelling. */
  lemma CompactCodes(key: string)
    requires key in DAY_MAP
    ensures DaysOf(key) == DaysOf(Join(DAY_MAP[key], "-"))
  {
    RemovingAbsent(key);
    ParseDaysOfCodes(DAY_MAP[key]);
  }

  /** Spaces never matter. */
  lemma SpacesDoNotMatter(s: string)
    ensures DaysOf(ReplaceAll(s, " ", "")) == DaysOf(s)
  {
    SpacesAreRemoved(s);
    RemovingAbsent(ReplaceAll(s, " ", ""));
  }

  /* ---------- Times ---------- */

  predicate IsDigit(c: char) {
    '0' <= c <= '9'
  }

  function DigitValue(c: char): nat
    requires IsDigit(c)
  {
    c as int - '0' as int
  }

  function Digit(n: nat): char
    requires n < 10
  {
    ('0' as int + n) as char
  }

  /** Four digits hhmm with hh < 24 and mm < 60, in seconds since midnight. */
  function ParseClock(s: string): Option<nat> {
    if |s| == 4 && IsDigit(s[0]) && IsDigit(s[1]) && IsDigit(s[2]) && IsDigit(s[3]) then
      var h := 10 * DigitValue(s[0]) + DigitValue(s[1]);
      var m := 10 * DigitValue(s[2]) + DigitValue(s[3]);
      if h < 24 && m < 60 then Some(3600 * h + 60 * m) else None
    else None
  }

  function PadTime(timeStr: string): string {
    var trimmed := TrimSpace(timeStr);
    if |trimmed| == 3 then "0" + trimmed else trimmed
  }

  /** The padded time, and its Unix time on the day that began at `midnight`. */
  function NormalizeTime(timeStr: string, midnight: int): (string, Option<int>) {
    var t := PadTime(timeStr);
    (t, if ParseClock(t).Some? then Some(midnight + ParseClock(t).value) else None)
  }

  /** hhmm in four digits. */
  function Clock(h: nat, m: nat): string
    requires h < 24 && m < 60
  {
    [Digit(h / 10), Digit(h % 10), Digit(m / 10), Digit(m % 10)]
  }

  lemma ParseClockReadsClock(h: nat, m: nat)
    requires h < 24 && m < 60
    ensures ParseClock(Clock(h, m)) == Some(3600 * h + 60 * m)
  {
  }

  /** `t` is a time of day: hhmm, or hmm before ten. */
  predicate WritesTime(t: string, h: nat, m: nat) {
    h < 24 && m < 60 && (t == Clock(h, m) || (h < 10 && t == Clock(h, m)[1..]))
  }

  lemma PaddedTime(s: string, h: nat, m: nat)
    requires h < 24 && m < 60
    ensures WritesTime(TrimSpace(s), h, m) <==> PadTime(s) == Clock(h, m)
  {
    var t := TrimSpace(s);
    assert Clock(h, m)[0] == '0' <==> h < 10;
    if |t| == 3 {
      assert ("0" + t)[1..] == t;
      assert Clock(h, m) == [Clock(h, m)[0]] + Clock(h, m)[1..];
    }
  }

  /** Exactly the times of day are accepted, with white space around, and written in four digits. */
  lemma NormalizeTimeExactly(s: string, midnight: int)
    ensures NormalizeTime(s, midnight).1.Some? <==> exists h: nat, m: nat :: WritesTime(TrimSpace(s), h, m)
    ensures forall h: nat, m: nat :: WritesTime(TrimSpace(s), h, m) ==>
              NormalizeTime(s, midnight) == (Clock(h, m), Some(midnight + 3600 * h + 60 * m))
  {
    var t := PadTime(s);
    if ParseClock(t).Some? {
      var h := 10 * DigitValue(t[0]) + DigitValue(t[1]);
      var m := 10 * DigitValue(t[2]) + DigitValue(t[3]);
      assert t == Clock(h, m);
      PaddedTime(s, h, m);
    }
    forall h: nat, m: nat | WritesTime(TrimSpace(s), h, m)
      ensures NormalizeTime(s, midnight) == (Clock(h, m), Some(midnight + 3600 * h + 60 * m))
    {
      PaddedTime(s, h, m);
      ParseClockReadsClock(h, m);
    }
  }

  /** A three-digit time is one before ten in the morning. */
  lemma ShortTimesAreMorning(s: string, h: nat, m: nat, midnight: int)
    requires h < 10 && m < 60 && TrimSpace(s) == Clock(h, m)[1..]
    ensures NormalizeTime(s, midnight) == (Clock(h, m), Some(midnight + 3600 * h + 60 * m))
  {
    NormalizeTimeExactly(s, midnight);
    assert WritesTime(TrimSpace(s), h, m);
  }

  /* ---------- Subjects ---------- */

  datatype RawSlot = RawSlot(day: string, start: string, ends: string, lect: string, venue: string)

  datatype RawSubject = RawSubject(code: string, sect: string, title: string, chr: string, schedule: seq<RawSlot>)

  datatype SessionRef = SessionRef(ses: string, sem: string)

  datatype ScheduleData = ScheduleData(subjects: seq<RawSubject>, allSem: seq<SessionRef>)

  datatype WeekTime = WeekTime(start: string, startUnix: int, end: string, endUnix: int, day: nat)

  /** A subject of the public schedule, without its random identifier. */
  datatype Subject = Subject(
    courseCode: string, courseName: string, venue: string, lecturer: string,
    timestamps: seq<WeekTime>, chr: real, section: nat)

  /** strconv.ParseFloat and safecast.Atoi32: library functions, taken as they are. */
  datatype Numbers = Numbers(parseFloat: string -> Option<real>, atoi32: string -> Option<int>)

  /** The conversion of an int32 to uint32. */
  function Uint32(n: int): nat {
    n % 0x1_0000_0000
  }

  predicate Timed(slot: RawSlot) {
    ParseClock(PadTime(slot.start)).Some? && ParseClock(PadTime(slot.ends)).Some?
  }

  function SlotDays(slot: RawSlot): seq<nat> {
    DaysOf(TrimSpace(slot.day))
  }

  function WeekTimeOf(slot: RawSlot, midnight: int, day: nat): WeekTime
    requires Timed(slot)
  {
    WeekTime(PadTime(slot.start), midnight + ParseClock(PadTime(slot.start)).value,
             PadTime(slot.ends), midnight + ParseClock(PadTime(slot.ends)).value, day)
  }

  function SlotTimes(slot: RawSlot, midnight: int): seq<WeekTime> {
    if Timed(slot) then
      var days := SlotDays(slot);
      seq(|days|, i requires 0 <= i < |days| => WeekTimeOf(slot, midnight, days[i]))
    else []
  }

  function Flatten<T>(xss: seq<seq<T>>): seq<T> {
    if xss == [] then [] else Flatten(xss[..|xss| - 1]) + xss[|xss| - 1]
  }

  lemma FlattenStep<T>(xss: seq<seq<T>>, k: nat)
    requires k < |xss|
    ensures Flatten(xss[..k + 1]) == Flatten(xss[..k]) + xss[k]
  {
    assert xss[..k + 1][..k] == xss[..k];
  }

  lemma {:induction false} FlattenPrefix<T>(xss: seq<seq<T>>, k: nat)
    requires k <= |xss|
    ensures Flatten(xss[..k]) <= Flatten(xss)
    decreases |xss| - k
  {
    if k < |xss| {
      FlattenStep(xss, k);
      FlattenPrefix(xss, k + 1);
    } else {
      assert xss[..k] == xss;
    }
  }

  function TimesPerSlot(slots: seq<RawSlot>, midnight: int): seq<seq<WeekTime>> {
    seq(|slots|, i requires 0 <= i < |slots| => SlotTimes(slots[i], midnight))
  }

  function Timestamps(slots: seq<RawSlot>, midnight: int): seq<WeekTime> {
    Flatten(TimesPerSlot(slots, midnight))
  }

  /** The first text that is not blank, trimmed. */
  function FirstNotBlank(texts: seq<string>): string {
    if texts == [] then ""
    else
      var n := |texts| - 1;
      var first := FirstNotBlank(texts[..n]);
      if first == "" then TrimSpace(texts[n]) else first
  }

  lemma FirstOfMore(texts: seq<string>, k: nat)
    requires k < |texts|
    ensures FirstNotBlank(texts[..k + 1]) ==
            if FirstNotBlank(texts[..k]) == "" then TrimSpace(texts[k]) else FirstNotBlank(texts[..k])
  {
    assert texts[..k + 1][..k] == texts[..k];
  }

  /** Nothing before `k` counts if it is blank, and nothing after `k` if text `k` is not. */
  lemma {:induction false} FirstNotBlankIsFirst(texts: seq<string>, k: nat)
    requires k < |texts| && forall j :: 0 <= j < k ==> TrimSpace(texts[j]) == ""
    ensures TrimSpace(texts[k]) != "" ==> FirstNotBlank(texts) == TrimSpace(texts[k])
    ensures k == |texts| - 1 && TrimSpace(texts[k]) == "" ==> FirstNotBlank(texts) == ""
  {
    var n := |texts| - 1;
    if k < n {
      FirstNotBlankIsFirst(texts[..n], k);
    } else if n > 0 {
      FirstNotBlankIsFirst(texts[..n], n - 1);
    }
  }

  function Venues(slots: seq<RawSlot>): seq<string> {
    seq(|slots|, i requires 0 <= i < |slots| => slots[i].venue)
  }

  function Lecturers(slots: seq<RawSlot>): seq<string> {
    seq(|slots|, i requires 0 <= i < |slots| => slots[i].lect)
  }

  function SubjectOf(raw: RawSubject, midnight: int, numbers: Numbers): Subject {
    Subject(
      TrimSpace(raw.code), TrimSpace(raw.title),
      FirstNotBlank(Venues(raw.schedule)), FirstNotBlank(Lecturers(raw.schedule)),
      Timestamps(raw.schedule, midnight),
      var chr := numbers.parseFloat(TrimSpace(raw.chr)); if chr.Some? then chr.value else 0.0,
      var section := numbers.atoi32(TrimSpace(raw.sect)); if section.Some? then Uint32(section.value) else 0)
  }

  function SubjectsOf(data: ScheduleData, midnight: int, numbers: Numbers): seq<Subject> {
    seq(|data.subjects|, i requires 0 <= i < |data.subjects| => SubjectOf(data.subjects[i], midnight, numbers))
  }

  /** Which part of the payload the code, the name, the credit hours and the section come from. */
  lemma SubjectFields(raw: RawSubject, midnight: int, numbers: Numbers)
    ensures var s := SubjectOf(raw, midnight, numbers);
            && s.courseCode == TrimSpace(raw.code) && s.courseName == TrimSpace(raw.title)
            && Some(s.chr) == (var x := numbers.parseFloat(TrimSpace(raw.chr)); if x.None? then Some(0.0) else x)
            && (numbers.atoi32(TrimSpace(raw.sect)).None? ==> s.section == 0)
    ensures var n := numbers.atoi32(TrimSpace(raw.sect));
            n.Some? ==>
              (0 <= n.value < 0x8000_0000 ==> SubjectOf(raw, midnight, numbers).section == n.value) &&
              (-0x8000_0000 <= n.value < 0 ==> SubjectOf(raw, midnight, numbers).section == n.value + 0x1_0000_0000)
  {
  }

  /** The venue and the lecturer come from the first slot that has one. */
  lemma SubjectPlace(raw: RawSubject, midnight: int, numbers: Numbers, k: nat)
    ensures NamesVenue(raw.schedule, k) ==>
              SubjectOf(raw, midnight, numbers).venue == TrimSpace(raw.schedule[k].venue)
    ensures NamesLecturer(raw.schedule, k) ==>
              SubjectOf(raw, midnight, numbers).lecturer == TrimSpace(raw.schedule[k].lect)
  {
    if NamesVenue(raw.schedule, k) {
      FirstNotBlankIsFirst(Venues(raw.schedule), k);
    }
    if NamesLecturer(raw.schedule, k) {
      FirstNotBlankIsFirst(Lecturers(raw.schedule), k);
    }
  }

  /** Slot `k` is the first one with a venue. */
  predicate NamesVenue(slots: seq<RawSlot>, k: nat) {
    k < |slots| && TrimSpace(slots[k].venue) != "" && forall j :: 0 <= j < k ==> TrimSpace(slots[j].venue) == ""
  }

  /** Slot `k` is the first one with a lecturer. */
  predicate NamesLecturer(slots: seq<RawSlot>, k: nat) {
    k < |slots| && TrimSpace(slots[k].lect) != "" && forall j :: 0 <= j < k ==> TrimSpace(slots[j].lect) == ""
  }

  method MapSlot(slot: RawSlot, midnight: int) returns (timestamps: seq<WeekTime>)
    ensures timestamps == SlotTimes(slot, midnight)
  {
    var (start, startUnix) := NormalizeTime(slot.start, midnight);
    var (end, endUnix) := NormalizeTime(slot.ends, midnight);
    timestamps := [];
    if startUnix.Some? && endUnix.Some? {
      var days := ParseDays(TrimSpace(slot.day));
      for d := 0 to |days|
        invariant timestamps == SlotTimes(slot, midnight)[..d]
      {
        timestamps := timestamps + [WeekTime(start, startUnix.value, end, endUnix.value, GetScheduleDays(days[d]))];
      }
    }
  }

  method MapSlots(slots: seq<RawSlot>, midnight: int)
      returns (venue: string, lecturer: string, timestamps: seq<WeekTime>)
    ensures venue == FirstNotBlank(Venues(slots)) && lecturer == FirstNotBlank(Lecturers(slots))
    ensures timestamps == Timestamps(slots, midnight)
  {
    venue, lecturer, timestamps := "", "", [];
    ghost var venues, lecturers, times := Venues(slots), Lecturers(slots), TimesPerSlot(slots, midnight);
    for k := 0 to |slots|
      invariant venue == FirstNotBlank(venues[..k]) && lecturer == FirstNotBlank(lecturers[..k])
      invariant timestamps == Flatten(times[..k])
    {
      FirstOfMore(venues, k);
      FirstOfMore(lecturers, k);
      FlattenStep(times, k);
      if venue == "" {
        venue := TrimSpace(slots[k].venue);
      }
      if lecturer == "" {
        lecturer := TrimSpace(slots[k].lect);
      }
      var expanded := MapSlot(slots[k], midnight);
      timestamps := timestamps + expanded;
    }
    assert venues[..|slots|] == venues && lecturers[..|slots|] == lecturers && times[..|slots|] == times;
  }

  method MapSubject(raw: RawSubject, midnight: int, numbers: Numbers) returns (subject: Subject)
    ensures subject == SubjectOf(raw, midnight, numbers)
  {
    var chr, section := 0.0, 0;
    var parsedChr := numbers.parseFloat(TrimSpace(raw.chr));
    if parsedChr.Some? {
      chr := parsedChr.value;
    }
    var parsedSection := numbers.atoi32(TrimSpace(raw.sect));
    if parsedSection.Some? {
      section := Uint32(parsedSection.value);
    }
    var venue, lecturer, timestamps := MapSlots(raw.schedule, midnight);
    subject := Subject(TrimSpace(raw.code), TrimSpace(raw.title), venue, lecturer, timestamps, chr, section);
  }

  method MapSchedule(data: ScheduleData, midnight: int, numbers: Numbers) returns (subjects: seq<Subject>)
    ensures subjects == SubjectsOf(data, midnight, numbers)
    ensures |subjects| == |data.subjects|
    ensures forall k :: 0 <= k < |subjects| ==>
              subjects[k].courseCode == TrimSpace(data.subjects[k].code) &&
              subjects[k].courseName == TrimSpace(data.subjects[k].title)
  {
    subjects := [];
    for k := 0 to |data.subjects|
      invariant |subjects| == k
      invariant forall j :: 0 <= j < k ==> subjects[j] == SubjectOf(data.subjects[j], midnight, numbers)
    {
      var subject := MapSubject(data.subjects[k], midnight, numbers);
      subjects := subjects + [subject];
    }
  }

  /** A slot emits one timestamp per parsed day, if it is timed. */
  function SlotCount(slot: RawSlot): nat {
    if Timed(slot) then |SlotDays(slot)| else 0
  }

  function Counts(slots: seq<RawSlot>): seq<nat> {
    seq(|slots|, i requires 0 <= i < |slots| => SlotCount(slots[i]))
  }

  function SumTo(counts: seq<nat>, k: nat): nat
    requires k <= |counts|
  {
    if k == 0 then 0 else SumTo(counts, k - 1) + counts[k - 1]
  }

  /** How many timestamps the slots before slot `k` emit. */
  function Offset(slots: seq<RawSlot>, k: nat): nat
    requires k <= |slots|
  {
    SumTo(Counts(slots), k)
  }

  lemma {:induction false} FlattenLength<T>(xss: seq<seq<T>>, counts: seq<nat>, k: nat)
    requires |xss| == |counts| && k <= |xss| && forall i :: 0 <= i < |xss| ==> |xss[i]| == counts[i]
    ensures |Flatten(xss[..k])| == SumTo(counts, k)
  {
    if k > 0 {
      FlattenLength(xss, counts, k - 1);
      FlattenStep(xss, k - 1);
    }
  }

  lemma SlotTimesLength(slot: RawSlot, midnight: int)
    ensures |SlotTimes(slot, midnight)| == SlotCount(slot)
  {
  }

  lemma OffsetIsLength(slots: seq<RawSlot>, midnight: int, k: nat)
    requires k <= |slots|
    ensures |Flatten(TimesPerSlot(slots, midnight)[..k])| == Offset(slots, k)
  {
    forall i | 0 <= i < |slots|
      ensures |TimesPerSlot(slots, midnight)[i]| == Counts(slots)[i]
    {
      SlotTimesLength(slots[i], midnight);
    }
    FlattenLength(TimesPerSlot(slots, midnight), Counts(slots), k);
  }

  /** No timestamp is emitted but one per day of each timed slot ... */
  lemma TimestampCount(slots: seq<RawSlot>, midnight: int)
    ensures |Timestamps(slots, midnight)| == Offset(slots, |slots|)
  {
    OffsetIsLength(slots, midnight, |slots|);
    assert TimesPerSlot(slots, midnight)[..|slots|] == TimesPerSlot(slots, midnight);
  }

  lemma FlattenAt<T>(xss: seq<seq<T>>, k: nat, d: nat)
    requires k < |xss| && d < |xss[k]|
    ensures |Flatten(xss[..k])| + d < |Flatten(xss)| && Flatten(xss)[|Flatten(xss[..k])| + d] == xss[k][d]
  {
    FlattenStep(xss, k);
    FlattenPrefix(xss, k + 1);
    assert Flatten(xss[..k + 1])[|Flatten(xss[..k])| + d] == xss[k][d];
  }

  lemma SlotTimeAt(slot: RawSlot, midnight: int, d: nat)
    requires Timed(slot) && d < |SlotDays(slot)|
    ensures d < |SlotTimes(slot, midnight)| &&
            SlotTimes(slot, midnight)[d] == WeekTimeOf(slot, midnight, SlotDays(slot)[d])
  {
  }

  /** A timestamp has the times and one day of its slot. */
  lemma WeekTimeFields(slot: RawSlot, midnight: int, day: nat)
    requires NormalizeTime(slot.start, midnight).1.Some? && NormalizeTime(slot.ends, midnight).1.Some?
    ensures Timed(slot)
    ensures var t := WeekTimeOf(slot, midnight, day);
            && (t.start, Some(t.startUnix)) == NormalizeTime(slot.start, midnight)
            && (t.end, Some(t.endUnix)) == NormalizeTime(slot.ends, midnight)
            && t.day == day
    ensures SlotDays(slot) == DaysOf(TrimSpace(slot.day))
  {
  }

  lemma TimestampInSlot(slots: seq<RawSlot>, midnight: int, k: nat, d: nat)
    requires k < |slots| && d < |TimesPerSlot(slots, midnight)[k]|
    ensures Offset(slots, k) + d < |Timestamps(slots, midnight)|
    ensures Timestamps(slots, midnight)[Offset(slots, k) + d] == TimesPerSlot(slots, midnight)[k][d]
  {
    OffsetIsLength(slots, midnight, k);
    FlattenAt(TimesPerSlot(slots, midnight), k, d);
  }

  /** ... and they come in the order of the slots and of the days within a slot. */
  lemma TimestampAt(slots: seq<RawSlot>, midnight: int, k: nat, d: nat)
    requires k < |slots| && Timed(slots[k]) && d < |SlotDays(slots[k])|
    ensures Offset(slots, k) + d < |Timestamps(slots, midnight)|
    ensures Timestamps(slots, midnight)[Offset(slots, k) + d] == WeekTimeOf(slots[k], midnight, SlotDays(slots[k])[d])
  {
    SlotTimeAt(slots[k], midnight, d);
    assert TimesPerSlot(slots, midnight)[k] == SlotTimes(slots[k], midnight);
    TimestampInSlot(slots, midnight, k, d);
  }

  /* ---------- The day of the scrape ---------- */

  function Undated(t: WeekTime): WeekTime {
    t.(startUnix := 0, endUnix := 0)
  }

  function UndatedTimes(ts: seq<WeekTime>): seq<WeekTime> {
    seq(|ts|, i requires 0 <= i < |ts| => Undated(ts[i]))
  }

  /** A subject without the Unix times, which depend on the day the page is scraped. */
  function UndatedSubject(s: Subject): Subject {
    s.(timestamps := UndatedTimes(s.timestamps))
  }

  function UndatedSubjects(ss: seq<Subject>): seq<Subject> {
    seq(|ss|, i requires 0 <= i < |ss| => UndatedSubject(ss[i]))
  }

  /** The two lists differ only in the midnight their Unix times count from. */
  ghost predicate Shifted(ts: seq<WeekTime>, us: seq<WeekTime>, m1: int, m2: int) {
    |ts| == |us| &&
    forall i :: 0 <= i < |ts| ==> Undated(ts[i]) == Undated(us[i]) && ts[i].startUnix - m1 == us[i].startUnix - m2
  }

  lemma SlotTimesShift(slot: RawSlot, m1: int, m2: int)
    ensures Shifted(SlotTimes(slot, m1), SlotTimes(slot, m2), m1, m2)
  {
  }

  lemma {:induction false} FlattenShift(xss: seq<seq<WeekTime>>, yss: seq<seq<WeekTime>>, m1: int, m2: int)
    requires |xss| == |yss| && forall k :: 0 <= k < |xss| ==> Shifted(xss[k], yss[k], m1, m2)
    ensures Shifted(Flatten(xss), Flatten(yss), m1, m2)
  {
    if xss != [] {
      var n := |xss| - 1;
      FlattenShift(xss[..n], yss[..n], m1, m2);
    }
  }

  lemma TimesShift(slots: seq<RawSlot>, m1: int, m2: int)
    ensures Shifted(Timestamps(slots, m1), Timestamps(slots, m2), m1, m2)
  {
    forall k | 0 <= k < |slots|
      ensures Shifted(TimesPerSlot(slots, m1)[k], TimesPerSlot(slots, m2)[k], m1, m2)
    {
      SlotTimesShift(slots[k], m1, m2);
    }
    FlattenShift(TimesPerSlot(slots, m1), TimesPerSlot(slots, m2), m1, m2);
  }

  predicate HasTimes(data: ScheduleData) {
    exists k :: 0 <= k < |data.subjects| && Offset(data.subjects[k].schedule, |data.subjects[k].schedule|) > 0
  }

  lemma SubjectDayMatters(raw: RawSubject, m1: int, m2: int, numbers: Numbers)
    ensures UndatedSubject(SubjectOf(raw, m1, numbers)) == UndatedSubject(SubjectOf(raw, m2, numbers))
    ensures SubjectOf(raw, m1, numbers) == SubjectOf(raw, m2, numbers) <==>
            m1 == m2 || Offset(raw.schedule, |raw.schedule|) == 0
  {
    var slots := raw.schedule;
    TimesShift(slots, m1, m2);
    TimestampCount(slots, m1);
    if m1 != m2 && Offset(slots, |slots|) > 0 {
      assert Timestamps(slots, m1)[0].startUnix != Timestamps(slots, m2)[0].startUnix;
    }
  }

  /** Scraping the same payload on another day gives the same subjects up to the Unix times, and the
      same subjects altogether exactly when it is the same day or nothing is timed. */
  lemma ScrapeDayMatters(data: ScheduleData, m1: int, m2: int, numbers: Numbers)
    ensures UndatedSubjects(SubjectsOf(data, m1, numbers)) == UndatedSubjects(SubjectsOf(data, m2, numbers))
    ensures SubjectsOf(data, m1, numbers) == SubjectsOf(data, m2, numbers) <==> m1 == m2 || !HasTimes(data)
  {
    forall k | 0 <= k < |data.subjects|
      ensures UndatedSubject(SubjectsOf(data, m1, numbers)[k]) == UndatedSubject(SubjectsOf(data, m2, numbers)[k])
      ensures var slots := data.subjects[k].schedule;
              SubjectsOf(data, m1, numbers)[k] == SubjectsOf(data, m2, numbers)[k] <==>
                  m1 == m2 || Offset(slots, |slots|) == 0
    {
      SubjectDayMatters(data.subjects[k], m1, m2, numbers);
    }
    if HasTimes(data) && m1 != m2 {
      var k :| 0 <= k < |data.subjects| && Offset(data.subjects[k].schedule, |data.subjects[k].schedule|) > 0;
      assert SubjectsOf(data, m1, numbers)[k] != SubjectsOf(data, m2, numbers)[k];
    }
  }

  /** The Unix times count from `midnight`. */
  predicate Stamped(t: WeekTime, midnight: int) {
    ParseClock(t.start).Some? && t.startUnix == midnight + ParseClock(t.start).value &&
    ParseClock(t.end).Some? && t.endUnix == midnight + ParseClock(t.end).value
  }

  ghost predicate AllStamped(ts: seq<WeekTime>, midnight: int) {
    forall i :: 0 <= i < |ts| ==> Stamped(ts[i], midnight)
  }

  ghost predicate SubjectsStamped(ss: seq<Subject>, midnight: int) {
    forall k :: 0 <= k < |ss| ==> AllStamped(ss[k].timestamps, midnight)
  }

  predicate HasTimestamps(ss: seq<Subject>) {
    exists k :: 0 <= k < |ss| && ss[k].timestamps != []
  }

  lemma {:induction false} FlattenIsStamped(xss: seq<seq<WeekTime>>, midnight: int)
    requires forall k :: 0 <= k < |xss| ==> AllStamped(xss[k], midnight)
    ensures AllStamped(Flatten(xss), midnight)
  {
    if xss != [] {
      FlattenIsStamped(xss[..|xss| - 1], midnight);
    }
  }

  lemma SlotIsStamped(slot: RawSlot, midnight: int)
    ensures AllStamped(SlotTimes(slot, midnight), midnight)
  {
  }

  /** All times of a scrape are those of its day. */
  lemma ScrapeIsStamped(data: ScheduleData, midnight: int, numbers: Numbers)
    ensures SubjectsStamped(SubjectsOf(data, midnight, numbers), midnight)
  {
    forall k | 0 <= k < |data.subjects|
      ensures AllStamped(SubjectsOf(data, midnight, numbers)[k].timestamps, midnight)
    {
      var slots := data.subjects[k].schedule;
      forall i | 0 <= i < |slots|
        ensures AllStamped(TimesPerSlot(slots, midnight)[i], midnight)
      {
        SlotIsStamped(slots[i], midnight);
      }
      FlattenIsStamped(TimesPerSlot(slots, midnight), midnight);
    }
  }

  lemma SameSubject(s: Subject, t: Subject, m1: int, m2: int)
    requires AllStamped(s.timestamps, m1) && AllStamped(t.timestamps, m2) && UndatedSubject(s) == UndatedSubject(t)
    ensures s == t <==> m1 == m2 || t.timestamps == []
  {
    assert |s.timestamps| == |UndatedTimes(s.timestamps)| == |UndatedTimes(t.timestamps)| == |t.timestamps|;
    forall i | 0 <= i < |s.timestamps|
      ensures s.timestamps[i] == t.timestamps[i] <==> m1 == m2
    {
      assert UndatedTimes(s.timestamps)[i] == UndatedTimes(t.timestamps)[i];
    }
    if t.timestamps != [] && m1 != m2 {
      assert s.timestamps[0] != t.timestamps[0];
    } else {
      assert s.timestamps == t.timestamps;
    }
  }

  /** Two scrapes that agree up to Unix times are equal if and only if they are of the same day or show no
      times. */
  lemma SameUndated(ss: seq<Subject>, ts: seq<Subject>, m1: int, m2: int)
    requires SubjectsStamped(ss, m1) && SubjectsStamped(ts, m2) && UndatedSubjects(ss) == UndatedSubjects(ts)
    ensures ss == ts <==> m1 == m2 || !HasTimestamps(ts)
  {
    assert |ss| == |UndatedSubjects(ss)| == |UndatedSubjects(ts)| == |ts|;
    forall k | 0 <= k < |ss|
      ensures ss[k] == ts[k] <==> m1 == m2 || ts[k].timestamps == []
    {
      assert UndatedSubjects(ss)[k] == UndatedSubjects(ts)[k];
      SameSubject(ss[k], ts[k], m1, m2);
    }
  }
}
