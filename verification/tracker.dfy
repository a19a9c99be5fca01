/**
 * The tracking agent: mints an objective per analysis objective and a task
 * per analysis task, infers each task's due date and assignee from its
 * text, links tasks to objectives by shared words, and updates statuses.
 * Identifiers come from `mint`, the `uuidv4` generator, indexed by how many
 * identifiers the agent has drawn so far.
 */
module Tracker {
  import opened Wrappers
  import opened Text
  import opened Dates
  import opened Analyzer
  import opened Sequences

  datatype Objective = Objective(id: string, text: string, status: string, createdAt: string,
                                 meetingId: string, relatedTasks: seq<string>, updatedAt: Option<string>)

  /** `dueDate` is a day number; the source renders it as `YYYY-MM-DD`. */
  datatype TrackedTask = TrackedTask(id: string, text: string, status: string, createdAt: string,
                                     meetingId: string, dueDate: int, assignee: string, updatedAt: Option<string>)

  datatype Tracking = Tracking(meetingId: string, timestamp: string, objectives: seq<Objective>, tasks: seq<TrackedTask>)

  /** The agent's two maps and the number of identifiers drawn so far. */
  datatype Agent = Agent(tasks: map<string, TrackedTask>, objectives: map<string, Objective>, minted: nat)

  const NoAnalysisError: string := "No se proporcionó análisis para el seguimiento"
  const Unassigned: string := "Sin asignar"
  const TaskStatuses: seq<string> := ["TODO", "IN_PROGRESS", "DONE", "BLOCKED"]
  const ObjectiveStatuses: seq<string> := ["PENDING", "IN_PROGRESS", "COMPLETED", "CANCELLED"]

  // ---------------------------------------------------------------------------
  // Due dates
  // ---------------------------------------------------------------------------

  /** A case-insensitive search for a lower-case phrase, as `/phrase/i.test(text)`. */
  predicate Mentions(text: string, phrase: string) {
    Contains(Lower(text), phrase)
  }

  /** The groups of `/(\d{1,2})[\/\-](\d{1,2})(?:[\/\-](\d{2,4}))?/` as numbers. */
  datatype DateMatch = DateMatch(day: nat, month: nat, year: Option<nat>)

  /** The number written by the `len` digits at `i`, most significant first. */
  function NumberAt(s: string, i: nat, len: nat): nat
    requires i + len <= |s|
    requires forall k :: i <= k < i + len ==> DigitAt(s, k)
    decreases len
  {
    if len == 0 then 0
    else
      assert DigitAt(s, i + len - 1);
      NumberAt(s, i, len - 1) * 10 + DigitValue(s[i + len - 1])
  }

  /** Reading digits in place agrees with parsing the slice `t` they occupy. */
  lemma {:induction false} NumberAtParses(s: string, i: nat, t: string)
    requires i + |t| <= |s| && t == s[i..i + |t|]
    requires forall k :: i <= k < i + |t| ==> DigitAt(s, k)
    ensures forall k :: 0 <= k < |t| ==> IsDigit(t[k])
    ensures NumberAt(s, i, |t|) == ParseDigits(t)
    decreases |t|
  {
    forall k | 0 <= k < |t| ensures IsDigit(t[k]) {
      assert DigitAt(s, i + k);
    }
    if t != [] {
      NumberAtParses(s, i, t[..|t| - 1]);
    }
  }

  /** Width of the day group at `p`: two digits when a separator and a digit follow them, else one, else no match. */
  function DayWidth(s: string, p: nat): (w: nat)
    ensures w <= 2
    ensures w > 0 ==> p + w + 1 < |s| && DigitAt(s, p) && DigitAt(s, p + w - 1) && SepAt(s, p + w) && DigitAt(s, p + w + 1)
  {
    if DigitAt(s, p) && DigitAt(s, p + 1) && SepAt(s, p + 2) && DigitAt(s, p + 3) then 2
    else if DigitAt(s, p) && SepAt(s, p + 1) && DigitAt(s, p + 2) then 1
    else 0
  }

  /** The date pattern matches at `p`. */
  predicate DateAt(s: string, p: nat) {
    DayWidth(s, p) > 0
  }

  /** Width of the month group starting at the digit at `q`: two digits when it can take them. */
  function MonthWidth(s: string, q: nat): (w: nat)
    requires DigitAt(s, q)
    ensures 1 <= w <= 2 && q + w <= |s| && forall k :: q <= k < q + w ==> DigitAt(s, k)
  {
    if DigitAt(s, q + 1) then 2 else 1
  }

  /** Width of the optional year group after the month ending at `r`; fewer than two digits means no year. */
  function YearWidth(s: string, r: nat): (w: nat)
    ensures w <= 4 && forall k :: r + 1 <= k < r + 1 + w ==> DigitAt(s, k)
  {
    if SepAt(s, r) then DigitRun(s, r + 1, 4) else 0
  }

  /**
   * The groups of the date pattern matched at `p`, with the regular
   * expression's backtracking worked out.
   */
  function MatchDateAt(s: string, p: nat): DateMatch
    requires DateAt(s, p)
  {
    var g1 := DayWidth(s, p);
    var q := p + g1 + 1;
    var g2 := MonthWidth(s, q);
    var y := YearWidth(s, q + g2);
    DateMatch(NumberAt(s, p, g1), NumberAt(s, q, g2),
              if y >= 2 then Some(NumberAt(s, q + g2 + 1, y)) else None)
  }

  /** `text.match(pattern)`: the leftmost position from `p` where the pattern matches. */
  function FindDate(s: string, p: nat): (r: Option<nat>)
    ensures r.Some? ==> p <= r.value < |s| && DateAt(s, r.value)
    decreases |s| - p
  {
    if p >= |s| then None
    else if DateAt(s, p) then Some(p)
    else FindDate(s, p + 1)
  }

  /** `FindDate` finds a match exactly when there is one, and no match lies before the one it finds. */
  lemma {:induction false} FindDateLeftmost(s: string, p: nat)
    ensures FindDate(s, p).None? <==> forall i :: p <= i < |s| ==> !DateAt(s, i)
    ensures FindDate(s, p).Some? ==> forall j :: p <= j < FindDate(s, p).value ==> !DateAt(s, j)
    decreases |s| - p
  {
    if p < |s| && !DateAt(s, p) {
      FindDateLeftmost(s, p + 1);
    }
  }

  /** `year < 100 ? 2000 + year : year`, the current year standing in for a missing one. */
  function FullYear(year: Option<nat>, current: int): (y: int)
    ensures year.Some? && year.value < 100 ==> y == 2000 + year.value
    ensures year.Some? && year.value >= 100 ==> y == year.value
    ensures year.None? ==> y == (if current < 100 then 2000 + current else current)
  {
    var v := if year.Some? then year.value else current;
    if v < 100 then 2000 + v else v
  }

  /** The day a matched date denotes; `new Date(year, month - 1, day)` overflows like `MakeDay`. */
  function DateDay(m: DateMatch, today: Civil): int {
    MakeDay(FullYear(m.year, today.year), m.month - 1, m.day)
  }

  /** `_estimateDueDate(text)` as a day number, `today` being the local date when it runs. */
  function DueDate(text: string, today: Civil): int {
    if NextWeek(text) then DayOf(today) + 7
    else if NextMonth(text) then AddMonths(today, 1)
    else
      match FindDate(text, 0)
      case Some(i) => DateDay(MatchDateAt(text, i), today)
      case None => DayOf(today) + 14
  }

  predicate NextWeek(text: string) { Mentions(text, "próxima semana") || Mentions(text, "next week") }
  predicate NextMonth(text: string) { Mentions(text, "próximo mes") || Mentions(text, "next month") }

  /**
   * Without a "next week" or "next month" phrase, the due date is the one
   * written at the leftmost position where the date pattern matches.
   */
  lemma DueDateFromLeftmostDate(text: string, today: Civil, i: nat)
    requires !NextWeek(text) && !NextMonth(text)
    requires i < |text| && DateAt(text, i) && forall j :: 0 <= j < i ==> !DateAt(text, j)
    ensures DueDate(text, today) == DateDay(MatchDateAt(text, i), today)
  {
    FindDateAt(text, i);
  }

  lemma FindDateAt(text: string, i: nat)
    requires i < |text| && DateAt(text, i) && forall j :: 0 <= j < i ==> !DateAt(text, j)
    ensures FindDate(text, 0) == Some(i)
  {
    FindDateLeftmost(text, 0);
  }

  /** Without a phrase and without any date, the task is due in two weeks. */
  lemma DueDateWithoutDate(text: string, today: Civil)
    requires !NextWeek(text) && !NextMonth(text)
    requires forall i :: 0 <= i < |text| ==> !DateAt(text, i)
    ensures DueDate(text, today) == DayOf(today) + 14
  {
    FindDateLeftmost(text, 0);
  }

  /** The text `t` sits at `i` in `s`, read character by character. */
  predicate WrittenAt(s: string, i: nat, t: string)
    decreases t
  {
    if t == [] then i <= |s| else i < |s| && s[i] == t[0] && WrittenAt(s, i + 1, t[1..])
  }

  lemma {:induction false} WrittenAtSlice(s: string, i: nat, t: string)
    ensures WrittenAt(s, i, t) <==> i + |t| <= |s| && s[i..i + |t|] == t
    decreases t
  {
    if t != [] {
      WrittenAtSlice(s, i + 1, t[1..]);
      if i < |s| && i + |t| <= |s| {
        assert s[i..i + |t|] == [s[i]] + s[i + 1..i + 1 + |t[1..]|];
        assert t == [t[0]] + t[1..];
      }
    }
  }

  /** The decimal text of `n` sits at `i` in `s`. */
  predicate DecimalAt(s: string, i: nat, n: nat) {
    WrittenAt(s, i, NatToString(n))
  }

  lemma DigitsOfDecimal(s: string, i: nat, n: nat)
    requires DecimalAt(s, i, n)
    ensures i + |NatToString(n)| <= |s|
    ensures forall k :: i <= k < i + |NatToString(n)| ==> DigitAt(s, k)
    ensures NumberAt(s, i, |NatToString(n)|) == n
  {
    var t := NatToString(n);
    WrittenAtSlice(s, i, t);
    forall k | i <= k < i + |t| ensures DigitAt(s, k) {
      assert s[k] == t[k - i];
    }
    NumberAtParses(s, i, t);
    ParseNatToString(n);
  }

  /**
   * A date written `D/M/YYYY` (or with a two- or three-digit year) after text
   * without digits is read back as the day, month and year written.
   */
  lemma ReadWrittenDate(s: string, pre: nat, d: nat, m: nat, y: nat)
    requires forall k :: 0 <= k < pre ==> !DigitAt(s, k)
    requires 0 < d < 100 && 0 < m < 100 && 10 <= y < 10000
    requires DecimalAt(s, pre, d)
    requires SepAt(s, pre + |NatToString(d)|)
    requires DecimalAt(s, pre + |NatToString(d)| + 1, m)
    requires SepAt(s, pre + |NatToString(d)| + 1 + |NatToString(m)|)
    requires DecimalAt(s, pre + |NatToString(d)| + |NatToString(m)| + 2, y)
    requires !DigitAt(s, pre + |NatToString(d)| + |NatToString(m)| + 2 + |NatToString(y)|)
    ensures FindDate(s, 0) == Some(pre)
    ensures MatchDateAt(s, pre) == DateMatch(d, m, Some(y))
  {
    WrittenRuns(s, pre, d, m, y);
    ReadDigitRuns(s, pre, |NatToString(d)|, |NatToString(m)|, |NatToString(y)|, d, m, y);
  }

  /** The three decimals written at their places are digit runs of the widths the date pattern accepts, reading the numbers written. */
  lemma WrittenRuns(s: string, pre: nat, d: nat, m: nat, y: nat)
    requires 0 < d < 100 && 0 < m < 100 && 10 <= y < 10000
    requires DecimalAt(s, pre, d)
    requires DecimalAt(s, pre + |NatToString(d)| + 1, m)
    requires DecimalAt(s, pre + |NatToString(d)| + |NatToString(m)| + 2, y)
    ensures 1 <= |NatToString(d)| <= 2 && 1 <= |NatToString(m)| <= 2 && 2 <= |NatToString(y)| <= 4
    ensures forall k :: pre <= k < pre + |NatToString(d)| ==> DigitAt(s, k)
    ensures forall k :: pre + |NatToString(d)| + 1 <= k < pre + |NatToString(d)| + 1 + |NatToString(m)| ==> DigitAt(s, k)
    ensures forall k :: pre + |NatToString(d)| + |NatToString(m)| + 2 <= k < pre + |NatToString(d)| + |NatToString(m)| + 2 + |NatToString(y)| ==> DigitAt(s, k)
    ensures pre + |NatToString(d)| + |NatToString(m)| + 2 + |NatToString(y)| <= |s|
    ensures NumberAt(s, pre, |NatToString(d)|) == d
    ensures NumberAt(s, pre + |NatToString(d)| + 1, |NatToString(m)|) == m
    ensures NumberAt(s, pre + |NatToString(d)| + |NatToString(m)| + 2, |NatToString(y)|) == y
  {
    DecimalLength(d);
    DecimalLength(m);
    DecimalLength(y);
    DigitsOfDecimal(s, pre, d);
    DigitsOfDecimal(s, pre + |NatToString(d)| + 1, m);
    DigitsOfDecimal(s, pre + |NatToString(d)| + |NatToString(m)| + 2, y);
  }

  /** Runs of `ld`, `lm` and `ly` digits reading `d`, `m` and `y`, after digit-free text, are the first date found. */
  lemma ReadDigitRuns(s: string, pre: nat, ld: nat, lm: nat, ly: nat, d: nat, m: nat, y: nat)
    requires forall k :: 0 <= k < pre ==> !DigitAt(s, k)
    requires 1 <= ld <= 2 && 1 <= lm <= 2 && 2 <= ly <= 4
    requires forall k :: pre <= k < pre + ld ==> DigitAt(s, k)
    requires SepAt(s, pre + ld)
    requires forall k :: pre + ld + 1 <= k < pre + ld + 1 + lm ==> DigitAt(s, k)
    requires SepAt(s, pre + ld + 1 + lm)
    requires forall k :: pre + ld + lm + 2 <= k < pre + ld + lm + 2 + ly ==> DigitAt(s, k)
    requires !DigitAt(s, pre + ld + lm + 2 + ly) && pre + ld + lm + 2 + ly <= |s|
    requires NumberAt(s, pre, ld) == d && NumberAt(s, pre + ld + 1, lm) == m && NumberAt(s, pre + ld + lm + 2, ly) == y
    ensures FindDate(s, 0) == Some(pre)
    ensures MatchDateAt(s, pre) == DateMatch(d, m, Some(y))
  {
    MatchDigitRuns(s, pre, ld, lm, ly);
    FindDateSkips(s, 0, pre);
  }

  /**
   * End to end: a task text without "next week"/"next month" phrases that
   * writes `D/M/Y` after digit-free text is due on that day, a two-digit
   * year meaning 20YY.
   */
  lemma WrittenDueDate(s: string, pre: nat, d: nat, m: nat, y: nat, today: Civil)
    requires !NextWeek(s) && !NextMonth(s)
    requires forall k :: 0 <= k < pre ==> !DigitAt(s, k)
    requires 0 < d < 100 && 0 < m < 100 && 10 <= y < 10000
    requires DecimalAt(s, pre, d)
    requires SepAt(s, pre + |NatToString(d)|)
    requires DecimalAt(s, pre + |NatToString(d)| + 1, m)
    requires SepAt(s, pre + |NatToString(d)| + 1 + |NatToString(m)|)
    requires DecimalAt(s, pre + |NatToString(d)| + |NatToString(m)| + 2, y)
    requires !DigitAt(s, pre + |NatToString(d)| + |NatToString(m)| + 2 + |NatToString(y)|)
    ensures DueDate(s, today) == MakeDay(if y < 100 then 2000 + y else y, m - 1, d)
  {
    ReadWrittenDate(s, pre, d, m, y);
  }

  /** The pattern at `p` over runs of `ld`, `lm` and `ly` digits separated by `/` or `-`. */
  lemma MatchDigitRuns(s: string, p: nat, ld: nat, lm: nat, ly: nat)
    requires 1 <= ld <= 2 && 1 <= lm <= 2 && 2 <= ly <= 4
    requires forall k :: p <= k < p + ld ==> DigitAt(s, k)
    requires SepAt(s, p + ld)
    requires forall k :: p + ld + 1 <= k < p + ld + 1 + lm ==> DigitAt(s, k)
    requires SepAt(s, p + ld + 1 + lm)
    requires forall k :: p + ld + lm + 2 <= k < p + ld + lm + 2 + ly ==> DigitAt(s, k)
    requires !DigitAt(s, p + ld + lm + 2 + ly)
    ensures DateAt(s, p) && DayWidth(s, p) == ld
    ensures MatchDateAt(s, p) == DateMatch(NumberAt(s, p, ld), NumberAt(s, p + ld + 1, lm),
                                           Some(NumberAt(s, p + ld + lm + 2, ly)))
  {
    assert DigitAt(s, p) && DigitAt(s, p + ld + 1);
    assert !DigitAt(s, p + ld) && !DigitAt(s, p + ld + 1 + lm);
    assert MonthWidth(s, p + ld + 1) == lm;
    DigitRunOfDecimal(s, p + ld + lm + 2, ly, 4);
  }

  lemma DecimalLength(n: nat)
    ensures n < 100 ==> |NatToString(n)| <= 2
    ensures 10 <= n ==> |NatToString(n)| >= 2
    ensures n < 10000 ==> |NatToString(n)| <= 4
  {
    if n >= 10 {
      DecimalLength(n / 10);
    }
  }

  lemma {:induction false} DigitRunOfDecimal(s: string, i: nat, len: nat, cap: nat)
    requires len <= cap
    requires forall k :: i <= k < i + len ==> DigitAt(s, k)
    requires !DigitAt(s, i + len)
    ensures DigitRun(s, i, cap) == len
    decreases cap
  {
    if len > 0 {
      DigitRunOfDecimal(s, i + 1, len - 1, cap - 1);
    }
  }

  lemma {:induction false} FindDateSkips(s: string, p: nat, target: nat)
    requires p <= target < |s|
    requires forall k :: p <= k < target ==> !DigitAt(s, k)
    requires DateAt(s, target)
    ensures FindDate(s, p) == Some(target)
    decreases target - p
  {
    if p < target {
      FindDateSkips(s, p + 1, target);
    }
  }

  // ---------------------------------------------------------------------------
  // Assignee
  // ---------------------------------------------------------------------------

  /** The class `[A-Za-zÁáÉéÍíÓóÚúÑñ\s]`. */
  predicate IsNameChar(c: char) {
    ('A' <= c <= 'Z') || ('a' <= c <= 'z')
    || c == 'Á' || c == 'á' || c == 'É' || c == 'é' || c == 'Í' || c == 'í'
    || c == 'Ó' || c == 'ó' || c == 'Ú' || c == 'ú' || c == 'Ñ' || c == 'ñ'
    || IsSpace(c)
  }

  /** The lazy `+?` loop: the first end `e` at a `,`, a `.` or the end of the text, over name characters only. */
  function LazyEnd(s: string, e: nat): (r: Option<nat>)
    requires e <= |s|
    ensures r.Some? ==> e <= r.value <= |s| && forall k :: e <= k < r.value ==> IsNameChar(s[k])
    decreases |s| - e
  {
    if e == |s| || s[e] == ',' || s[e] == '.' then Some(e)
    else if IsNameChar(s[e]) then LazyEnd(s, e + 1)
    else None
  }

  /**
   * `\s+([class]+?)(?:,|\.|$)` from `q0`, backtracking worked out: the whitespace
   * run is taken whole and the name starts after it; when the run is followed at
   * once by `,`, `.` or the end of the text, the run gives back one whitespace
   * character, which becomes the whole capture.
   */
  function CaptureAt(s: string, q0: nat): (r: Option<string>)
    requires q0 <= |s|
    ensures r.Some? ==> r.value != []
  {
    var k := SpaceRun(s, q0);
    if k == 0 then None
    else
      var q := q0 + k;
      if q < |s| && IsNameChar(s[q]) && LazyEnd(s, q + 1).Some? then Some(s[q..LazyEnd(s, q + 1).value])
      else if k >= 2 && (q == |s| || s[q] == ',' || s[q] == '.') then Some(s[q - 1..q])
      else None
  }

  predicate PhraseAt(s: string, p: nat, w: string) {
    p + |w| <= |s| && Lower(s)[p..p + |w|] == w
  }

  /** Where each alternative of `(?:asignado a|assigned to|responsable:?)` ends at `p`, in the order they are tried. */
  function KeywordEnds(s: string, p: nat): (r: seq<nat>)
    ensures forall i :: 0 <= i < |r| ==> r[i] <= |s|
  {
    (if PhraseAt(s, p, "asignado a") then [p + 10] else [])
    + (if PhraseAt(s, p, "assigned to") then [p + 11] else [])
    + (if PhraseAt(s, p, "responsable") then
         (if p + 11 < |s| && s[p + 11] == ':' then [p + 12, p + 11] else [p + 11])
       else [])
  }

  /** The first alternative at `p` after which a name can be captured. */
  function FirstCapture(s: string, ends: seq<nat>): Option<string>
    requires forall i :: 0 <= i < |ends| ==> ends[i] <= |s|
  {
    if ends == [] then None
    else if CaptureAt(s, ends[0]).Some? then CaptureAt(s, ends[0])
    else FirstCapture(s, ends[1..])
  }

  /** The leftmost match of the assignee pattern, as its captured name. */
  function FindAssignee(s: string, p: nat): Option<string>
    decreases |s| - p
  {
    if p >= |s| then None
    else if FirstCapture(s, KeywordEnds(s, p)).Some? then FirstCapture(s, KeywordEnds(s, p))
    else FindAssignee(s, p + 1)
  }

  /** `_extractAssignee(text)` */
  function Assignee(text: string): string {
    match FindAssignee(text, 0)
    case Some(name) => Trim(name)
    case None => Unassigned
  }

  /** Without any of the three phrases there is no assignee. */
  lemma NoPhraseUnassigned(text: string)
    requires !Contains(Lower(text), "asignado a") && !Contains(Lower(text), "assigned to")
    requires !Contains(Lower(text), "responsable")
    ensures Assignee(text) == Unassigned
  {
    ContainsIffOccurs(Lower(text), "asignado a");
    ContainsIffOccurs(Lower(text), "assigned to");
    ContainsIffOccurs(Lower(text), "responsable");
    NoKeywordNoMatch(text, 0);
  }

  lemma {:induction false} NoKeywordNoMatch(s: string, p: nat)
    requires forall i :: !OccursAt(Lower(s), "asignado a", i)
    requires forall i :: !OccursAt(Lower(s), "assigned to", i)
    requires forall i :: !OccursAt(Lower(s), "responsable", i)
    ensures FindAssignee(s, p) == None
    decreases |s| - p
  {
    if p < |s| {
      assert !OccursAt(Lower(s), "asignado a", p);
      assert !OccursAt(Lower(s), "assigned to", p);
      assert !OccursAt(Lower(s), "responsable", p);
      assert KeywordEnds(s, p) == [];
      NoKeywordNoMatch(s, p + 1);
    }
  }

  lemma {:induction false} LazyEndReachesEnd(s: string, e: nat)
    requires e <= |s|
    requires forall k :: e <= k < |s| ==> IsNameChar(s[k])
    ensures LazyEnd(s, e) == Some(|s|)
    decreases |s| - e
  {
    if e < |s| {
      assert s[e] != ',' && s[e] != '.';
      LazyEndReachesEnd(s, e + 1);
    }
  }

  /** A name written after "asignado a " and running to the end of the text is the assignee. */
  lemma AssignedNameRoundTrip(name: string)
    requires name != [] && !IsSpace(name[0])
    requires forall k :: 0 <= k < |name| ==> IsNameChar(name[k])
    ensures Assignee("asignado a " + name) == Trim(name)
  {
    var s := "asignado a " + name;
    AsignadoKeyword(s);
    NameCapture(s, name);
    var ends := KeywordEnds(s, 0);
    assert FirstCapture(s, ends) == CaptureAt(s, 10);
  }

  lemma AsignadoKeyword(s: string)
    requires |s| >= 11 && s[..11] == "asignado a "
    ensures KeywordEnds(s, 0) != [] && KeywordEnds(s, 0)[0] == 10
  {
    var l := Lower(s);
    forall k | 0 <= k < 10 ensures l[k] == "asignado a"[k] {
      assert s[k] == s[..11][k] == "asignado a "[k];
    }
    assert l[..10] == "asignado a";
    assert PhraseAt(s, 0, "asignado a");
  }

  lemma NameCapture(s: string, name: string)
    requires name != [] && !IsSpace(name[0])
    requires forall k :: 0 <= k < |name| ==> IsNameChar(name[k])
    requires s == "asignado a " + name
    ensures CaptureAt(s, 10) == Some(name)
  {
    assert s[10] == ' ' && s[11] == name[0];
    assert SpaceRun(s, 11) == 0;
    assert SpaceRun(s, 10) == 1;
    forall k | 12 <= k < |s| ensures IsNameChar(s[k]) {
      assert s[k] == name[k - 11];
    }
    LazyEndReachesEnd(s, 12);
    assert s[11..|s|] == name;
  }

  // ---------------------------------------------------------------------------
  // Linking tasks to objectives
  // ---------------------------------------------------------------------------

  /** The task's words longer than three characters that also occur among the objective's words, with repetition. */
  function CommonWords(taskWords: seq<string>, objectiveWords: seq<string>): (r: seq<string>)
    ensures |r| <= |taskWords|
    ensures forall i :: 0 <= i < |r| ==> |r[i]| > 3 && r[i] in objectiveWords
  {
    if taskWords == [] then []
    else (if |taskWords[0]| > 3 && taskWords[0] in objectiveWords then [taskWords[0]] else [])
         + CommonWords(taskWords[1..], objectiveWords)
  }

  /** The shared words are exactly the long task words found in the objective, each as often as in the task. */
  lemma {:induction false} CommonWordsCount(taskWords: seq<string>, objectiveWords: seq<string>)
    ensures forall w :: multiset(CommonWords(taskWords, objectiveWords))[w]
                        == (if |w| > 3 && w in objectiveWords then multiset(taskWords)[w] else 0)
  {
    if taskWords != [] {
      CommonWordsCount(taskWords[1..], objectiveWords);
      assert taskWords == [taskWords[0]] + taskWords[1..];
    }
  }

  /** A task relates to an objective when at least two such words are shared. */
  predicate Related(taskText: string, objectiveText: string) {
    |CommonWords(SplitWords(Lower(taskText)), SplitWords(Lower(objectiveText)))| >= 2
  }

  /** `_relateTaskToObjectives`: the task's id is appended to every related objective, with no early exit. */
  function RelateTask(objectives: seq<Objective>, t: TrackedTask): (r: seq<Objective>)
    ensures |r| == |objectives|
    ensures forall i :: 0 <= i < |r| ==>
      r[i] == (if Related(t.text, objectives[i].text)
               then objectives[i].(relatedTasks := objectives[i].relatedTasks + [t.id])
               else objectives[i])
  {
    if objectives == [] then []
    else
      var o := objectives[0];
      [if Related(t.text, o.text) then o.(relatedTasks := o.relatedTasks + [t.id]) else o]
      + RelateTask(objectives[1..], t)
  }

  /** The tasks relate one after another, in order. */
  function RelateAll(objectives: seq<Objective>, tasks: seq<TrackedTask>): (r: seq<Objective>)
    ensures |r| == |objectives|
    decreases |tasks|
  {
    if tasks == [] then objectives
    else RelateTask(RelateAll(objectives, tasks[..|tasks| - 1]), tasks[|tasks| - 1])
  }

  /** The ids of the tasks related to an objective text, in task order. */
  function RelatedIds(objectiveText: string, tasks: seq<TrackedTask>): seq<string>
    decreases |tasks|
  {
    if tasks == [] then []
    else
      var n := |tasks| - 1;
      RelatedIds(objectiveText, tasks[..n]) + (if Related(tasks[n].text, objectiveText) then [tasks[n].id] else [])
  }

  /**
   * Linking task after task gives each objective exactly the ids of the tasks
   * related to it, in task order, and changes nothing else.
   */
  lemma {:induction false} RelateAllAt(objectives: seq<Objective>, tasks: seq<TrackedTask>, i: nat)
    requires i < |objectives|
    ensures RelateAll(objectives, tasks)[i]
      == objectives[i].(relatedTasks := objectives[i].relatedTasks + RelatedIds(objectives[i].text, tasks))
    decreases |tasks|
  {
    var o := objectives[i];
    if tasks == [] {
      assert o.relatedTasks + [] == o.relatedTasks;
    } else {
      var n := |tasks| - 1;
      RelateAllAt(objectives, tasks[..n], i);
      var before := RelatedIds(o.text, tasks[..n]);
      var extra := if Related(tasks[n].text, o.text) then [tasks[n].id] else [];
      assert RelatedIds(o.text, tasks) == before + extra;
      assert o.relatedTasks + before + extra == o.relatedTasks + (before + extra);
    }
  }

  lemma RelateAllSpec(objectives: seq<Objective>, tasks: seq<TrackedTask>)
    ensures forall i :: 0 <= i < |objectives| ==>
      RelateAll(objectives, tasks)[i]
        == objectives[i].(relatedTasks := objectives[i].relatedTasks + RelatedIds(objectives[i].text, tasks))
  {
    forall i | 0 <= i < |objectives|
      ensures RelateAll(objectives, tasks)[i]
        == objectives[i].(relatedTasks := objectives[i].relatedTasks + RelatedIds(objectives[i].text, tasks))
    {
      RelateAllAt(objectives, tasks, i);
    }
  }

  predicate DistinctIds(tasks: seq<TrackedTask>) {
    forall i, j :: 0 <= i < j < |tasks| ==> tasks[i].id != tasks[j].id
  }

  /** Every related id is the id of one of the tasks, and distinct task ids give distinct related ids. */
  lemma {:induction false} RelatedIdsFromTasks(objectiveText: string, tasks: seq<TrackedTask>)
    ensures forall x :: x in RelatedIds(objectiveText, tasks) ==> exists j :: 0 <= j < |tasks| && tasks[j].id == x
    ensures DistinctIds(tasks) ==> Distinct(RelatedIds(objectiveText, tasks))
    decreases |tasks|
  {
    if tasks != [] {
      var n := |tasks| - 1;
      RelatedIdsFromTasks(objectiveText, tasks[..n]);
      var before := RelatedIds(objectiveText, tasks[..n]);
      forall x | x in RelatedIds(objectiveText, tasks) ensures exists j :: 0 <= j < |tasks| && tasks[j].id == x {
        if x in before {
          var j :| 0 <= j < n && tasks[..n][j].id == x;
          assert tasks[j].id == x;
        } else {
          assert tasks[n].id == x;
        }
      }
      if DistinctIds(tasks) {
        assert DistinctIds(tasks[..n]);
        if Related(tasks[n].text, objectiveText) {
          forall x | x in before ensures x != tasks[n].id {
            var j :| 0 <= j < n && tasks[..n][j].id == x;
            assert tasks[j].id == x;
          }
          DistinctAppend(before, tasks[n].id);
        } else {
          assert RelatedIds(objectiveText, tasks) == before + [];
          assert before + [] == before;
        }
      }
    }
  }

  // ---------------------------------------------------------------------------
  // trackMeeting
  // ---------------------------------------------------------------------------

  /** The objectives minted for the analysis objectives, ids drawn from `first` on. */
  function MintObjectives(items: seq<Item>, first: nat, mint: nat -> string, meetingId: string, at: string): (r: seq<Objective>)
    ensures |r| == |items|
    ensures forall i :: 0 <= i < |r| ==> r[i] == Objective(mint(first + i), items[i].text, "PENDING", at, meetingId, [], None)
  {
    if items == [] then []
    else [Objective(mint(first), items[0].text, "PENDING", at, meetingId, [], None)]
         + MintObjectives(items[1..], first + 1, mint, meetingId, at)
  }

  /**
   * How a task's due date and assignee are read from its text. The agent
   * reads them with `DueDate` and `Assignee` (see `TextReading`); the minting
   * below is stated for any reading.
   */
  datatype Reading = Reading(dueDate: string -> int, assignee: string -> string)

  /** The agent's own reading, relative to the calendar day `today`. */
  function TextReading(today: Civil): (r: Reading)
    ensures forall text :: r.dueDate(text) == DueDate(text, today) && r.assignee(text) == Assignee(text)
  {
    Reading(text => DueDate(text, today), Assignee)
  }

  /** The tasks minted for the analysis tasks, ids drawn from `first` on. */
  function MintTasks(items: seq<Item>, first: nat, mint: nat -> string, meetingId: string, at: string,
                     read: Reading): (r: seq<TrackedTask>)
    ensures |r| == |items|
    ensures forall i :: 0 <= i < |r| ==>
      r[i] == TrackedTask(mint(first + i), items[i].text, "TODO", at, meetingId,
                          read.dueDate(items[i].text), read.assignee(items[i].text), None)
  {
    if items == [] then []
    else [TrackedTask(mint(first), items[0].text, "TODO", at, meetingId,
                      read.dueDate(items[0].text), read.assignee(items[0].text), None)]
         + MintTasks(items[1..], first + 1, mint, meetingId, at, read)
  }

  /** The minted objectives after every task has been linked, against the reference `RelatedIds`. */
  function LinkedObjectives(items: seq<Item>, tasks: seq<TrackedTask>, first: nat, mint: nat -> string,
                            meetingId: string, at: string): (r: seq<Objective>)
    ensures |r| == |items|
    ensures forall i :: 0 <= i < |r| ==>
      r[i] == Objective(mint(first + i), items[i].text, "PENDING", at, meetingId, RelatedIds(items[i].text, tasks), None)
  {
    var minted := MintObjectives(items, first, mint, meetingId, at);
    RelateAllSpec(minted, tasks);
    RelateAll(minted, tasks)
  }

  /** `map.set(key(x), x)` for each `x` in order: later entries overwrite earlier ones with the same key. */
  function StoreAll<T>(m: map<string, T>, xs: seq<T>, key: T -> string): (r: map<string, T>)
    ensures r.Keys == m.Keys + set i | 0 <= i < |xs| :: key(xs[i])
    ensures forall k :: k in m && (forall i :: 0 <= i < |xs| ==> key(xs[i]) != k) ==> r[k] == m[k]
    decreases |xs|
  {
    if xs == [] then m
    else
      var n := |xs| - 1;
      var r := StoreAll(m, xs[..n], key)[key(xs[n]) := xs[n]];
      assert (set i | 0 <= i < |xs| :: key(xs[i])) == (set i | 0 <= i < n :: key(xs[..n][i])) + {key(xs[n])};
      r
  }

  /** With distinct keys, each stored entry is found under its key. */
  lemma {:induction false} StoreAllFinds<T>(m: map<string, T>, xs: seq<T>, key: T -> string, i: nat)
    requires i < |xs| && forall a, b :: 0 <= a < b < |xs| ==> key(xs[a]) != key(xs[b])
    ensures key(xs[i]) in StoreAll(m, xs, key) && StoreAll(m, xs, key)[key(xs[i])] == xs[i]
    decreases |xs|
  {
    var n := |xs| - 1;
    if i < n {
      StoreAllFinds(m, xs[..n], key, i);
      assert key(xs[..n][i]) != key(xs[n]);
    }
  }

  function TaskKey(t: TrackedTask): string { t.id }
  function ObjectiveKey(o: Objective): string { o.id }

  ghost predicate Injective(mint: nat -> string) {
    forall i, j :: i != j ==> mint(i) != mint(j)
  }

  /**
   * The tracking record for an analysis, identifiers drawn from `first` on:
   * one pending objective per analysis objective, then one task per analysis
   * task, each objective listing the tasks related to it.
   */
  function Track(a: Analysis, first: nat, meetingId: string, at: string, mint: nat -> string, read: Reading): (t: Tracking)
    ensures t.meetingId == meetingId && t.timestamp == at
    ensures |t.objectives| == |a.sections.objectives| && |t.tasks| == |a.sections.tasks|
  {
    var objs := a.sections.objectives;
    var tasks := MintTasks(a.sections.tasks, first + |objs|, mint, meetingId, at, read);
    Tracking(meetingId, at, LinkedObjectives(objs, tasks, first, mint, meetingId, at), tasks)
  }

  /** The record's two lists are the minted objectives and tasks. */
  lemma TrackParts(a: Analysis, first: nat, meetingId: string, at: string, mint: nat -> string, read: Reading)
    ensures var t := Track(a, first, meetingId, at, mint, read);
      t.tasks == MintTasks(a.sections.tasks, first + |a.sections.objectives|, mint, meetingId, at, read)
      && t.objectives == LinkedObjectives(a.sections.objectives, t.tasks, first, mint, meetingId, at)
  {
  }

  /** Each objective of the record is minted from its analysis objective and lists the tasks related to it. */
  lemma TrackObjectives(a: Analysis, first: nat, meetingId: string, at: string, mint: nat -> string, read: Reading)
    ensures var t := Track(a, first, meetingId, at, mint, read);
      forall i :: 0 <= i < |a.sections.objectives| ==>
        t.objectives[i] == Objective(mint(first + i), a.sections.objectives[i].text, "PENDING", at, meetingId,
                                     RelatedIds(a.sections.objectives[i].text, t.tasks), None)
  {
    TrackParts(a, first, meetingId, at, mint, read);
  }

  /** Each task of the record is minted from its analysis task, after the objective ids, read with `read`. */
  lemma TrackTasks(a: Analysis, first: nat, meetingId: string, at: string, mint: nat -> string, read: Reading)
    ensures var t := Track(a, first, meetingId, at, mint, read);
      forall j :: 0 <= j < |a.sections.tasks| ==>
        t.tasks[j] == TrackedTask(mint(first + |a.sections.objectives| + j), a.sections.tasks[j].text, "TODO",
                                  at, meetingId, read.dueDate(a.sections.tasks[j].text),
                                  read.assignee(a.sections.tasks[j].text), None)
  {
    TrackParts(a, first, meetingId, at, mint, read);
  }

  /**
   * `trackMeeting(analysis, meetingId)`. The maps hold the same objects as the
   * result, so they end up with the final `relatedTasks`.
   */
  function TrackMeeting(agent: Agent, analysis: Option<Analysis>, meetingId: string, clock: Clock,
                        mint: nat -> string): (out: (Agent, Reply<Tracking>))
    ensures analysis.None? ==> out == (agent, Failure(NoAnalysisError))
    ensures analysis.Some? ==>
      out.1 == Success(Track(analysis.value, agent.minted, meetingId, clock.timestamp, mint, TextReading(clock.today)), None)
    ensures analysis.Some? ==>
      out.0.minted == agent.minted + |analysis.value.sections.objectives| + |analysis.value.sections.tasks|
      && out.0.tasks == StoreAll(agent.tasks, out.1.payload.tasks, TaskKey)
      && out.0.objectives == StoreAll(agent.objectives, out.1.payload.objectives, ObjectiveKey)
  {
    match analysis
    case None => (agent, Failure(NoAnalysisError))
    case Some(a) =>
      var t := Track(a, agent.minted, meetingId, clock.timestamp, mint, TextReading(clock.today));
      var next := Agent(StoreAll(agent.tasks, t.tasks, TaskKey), StoreAll(agent.objectives, t.objectives, ObjectiveKey),
                        agent.minted + |a.sections.objectives| + |a.sections.tasks|);
      (next, Success(t, None))
  }

  /**
   * With distinct identifiers, every id is new within the call, and
   * `relatedTasks` holds only ids of tasks minted by the same call, each at
   * most once.
   */
  lemma TrackIds(a: Analysis, first: nat, meetingId: string, at: string, mint: nat -> string, read: Reading)
    requires Injective(mint)
    ensures var t := Track(a, first, meetingId, at, mint, read);
      DistinctIds(t.tasks)
      && (forall i, j :: 0 <= i < j < |t.objectives| ==> t.objectives[i].id != t.objectives[j].id)
      && (forall i :: 0 <= i < |t.objectives| ==>
            Distinct(t.objectives[i].relatedTasks)
            && forall x :: x in t.objectives[i].relatedTasks ==> exists j :: 0 <= j < |t.tasks| && t.tasks[j].id == x)
  {
    TrackObjectives(a, first, meetingId, at, mint, read);
    TrackTasks(a, first, meetingId, at, mint, read);
    MintedIds(Track(a, first, meetingId, at, mint, read), first, mint);
  }

  /** Ids drawn in order from an injective generator are distinct, and so are the related ids built from them. */
  lemma MintedIds(t: Tracking, first: nat, mint: nat -> string)
    requires Injective(mint)
    requires forall i :: 0 <= i < |t.objectives| ==>
      t.objectives[i].id == mint(first + i) && t.objectives[i].relatedTasks == RelatedIds(t.objectives[i].text, t.tasks)
    requires forall j :: 0 <= j < |t.tasks| ==> t.tasks[j].id == mint(first + |t.objectives| + j)
    ensures DistinctIds(t.tasks)
    ensures forall i, j :: 0 <= i < j < |t.objectives| ==> t.objectives[i].id != t.objectives[j].id
    ensures forall i :: 0 <= i < |t.objectives| ==>
      Distinct(t.objectives[i].relatedTasks)
      && forall x :: x in t.objectives[i].relatedTasks ==> exists j :: 0 <= j < |t.tasks| && t.tasks[j].id == x
  {
    var base := first + |t.objectives|;
    forall i, j | 0 <= i < j < |t.tasks| ensures t.tasks[i].id != t.tasks[j].id {
      assert t.tasks[i].id == mint(base + i) && t.tasks[j].id == mint(base + j);
    }
    forall i, j | 0 <= i < j < |t.objectives| ensures t.objectives[i].id != t.objectives[j].id {
      assert t.objectives[i].id == mint(first + i) && t.objectives[j].id == mint(first + j);
    }
    forall i | 0 <= i < |t.objectives|
      ensures Distinct(t.objectives[i].relatedTasks)
      ensures forall x :: x in t.objectives[i].relatedTasks ==> exists j :: 0 <= j < |t.tasks| && t.tasks[j].id == x
    {
      RelatedIdsFromTasks(t.objectives[i].text, t.tasks);
    }
  }

  /** After `trackMeeting`, the agent finds every objective and task the call returned under its id. */
  lemma TrackMeetingStores(agent: Agent, analysis: Option<Analysis>, meetingId: string, clock: Clock, mint: nat -> string)
    requires Injective(mint) && analysis.Some?
    ensures var out := TrackMeeting(agent, analysis, meetingId, clock, mint);
      (forall j :: 0 <= j < |out.1.payload.tasks| ==>
         out.1.payload.tasks[j].id in out.0.tasks && out.0.tasks[out.1.payload.tasks[j].id] == out.1.payload.tasks[j])
      && (forall i :: 0 <= i < |out.1.payload.objectives| ==>
         out.1.payload.objectives[i].id in out.0.objectives
         && out.0.objectives[out.1.payload.objectives[i].id] == out.1.payload.objectives[i])
  {
    var out := TrackMeeting(agent, analysis, meetingId, clock, mint);
    var t := out.1.payload;
    TrackIds(analysis.value, agent.minted, meetingId, clock.timestamp, mint, TextReading(clock.today));
    forall j | 0 <= j < |t.tasks| ensures t.tasks[j].id in out.0.tasks && out.0.tasks[t.tasks[j].id] == t.tasks[j] {
      StoreAllFinds(agent.tasks, t.tasks, TaskKey, j);
    }
    forall i | 0 <= i < |t.objectives|
      ensures t.objectives[i].id in out.0.objectives && out.0.objectives[t.objectives[i].id] == t.objectives[i]
    {
      StoreAllFinds(agent.objectives, t.objectives, ObjectiveKey, i);
    }
  }

  /** Each task `trackMeeting` returns carries the due date and assignee read from its text. */
  lemma TrackMeetingReadsTasks(agent: Agent, analysis: Option<Analysis>, meetingId: string, clock: Clock,
                               mint: nat -> string)
    requires analysis.Some?
    ensures var ts := TrackMeeting(agent, analysis, meetingId, clock, mint).1.payload.tasks;
      var items := analysis.value.sections.tasks;
      |ts| == |items|
      && forall j :: 0 <= j < |ts| ==>
           ts[j].text == items[j].text && ts[j].status == "TODO" && ts[j].createdAt == clock.timestamp
           && ts[j].dueDate == DueDate(items[j].text, clock.today) && ts[j].assignee == Assignee(items[j].text)
  {
    TrackTasks(analysis.value, agent.minted, meetingId, clock.timestamp, mint, TextReading(clock.today));
  }

  // ---------------------------------------------------------------------------
  // Status updates
  // ---------------------------------------------------------------------------

  /** `updateTaskStatus(taskId, status)` at time `now`: the updated agent and task, or the error thrown. */
  function UpdateTaskStatus(agent: Agent, taskId: string, status: string, now: string): (r: Result<(Agent, TrackedTask)>)
    ensures taskId !in agent.tasks ==> r == Err("Tarea no encontrada: " + taskId)
    ensures taskId in agent.tasks && status !in TaskStatuses ==> r == Err("Estado no válido: " + status)
    ensures r.Ok? ==> (taskId in agent.tasks && status in TaskStatuses
      && r.value.1 == agent.tasks[taskId].(status := status, updatedAt := Some(now))
      && r.value.0 == agent.(tasks := agent.tasks[taskId := r.value.1]))
  {
    if taskId !in agent.tasks then Err("Tarea no encontrada: " + taskId)
    else if status !in TaskStatuses then Err("Estado no válido: " + status)
    else
      var t := agent.tasks[taskId].(status := status, updatedAt := Some(now));
      Ok((agent.(tasks := agent.tasks[taskId := t]), t))
  }

  /** `updateObjectiveStatus(objectiveId, status)` at time `now`. */
  function UpdateObjectiveStatus(agent: Agent, objectiveId: string, status: string, now: string): (r: Result<(Agent, Objective)>)
    ensures objectiveId !in agent.objectives ==> r == Err("Objetivo no encontrado: " + objectiveId)
    ensures objectiveId in agent.objectives && status !in ObjectiveStatuses ==> r == Err("Estado no válido: " + status)
    ensures r.Ok? ==> (objectiveId in agent.objectives && status in ObjectiveStatuses
      && r.value.1 == agent.objectives[objectiveId].(status := status, updatedAt := Some(now))
      && r.value.0 == agent.(objectives := agent.objectives[objectiveId := r.value.1]))
  {
    if objectiveId !in agent.objectives then Err("Objetivo no encontrado: " + objectiveId)
    else if status !in ObjectiveStatuses then Err("Estado no válido: " + status)
    else
      var o := agent.objectives[objectiveId].(status := status, updatedAt := Some(now));
      Ok((agent.(objectives := agent.objectives[objectiveId := o]), o))
  }

  /**
   * A status update touches one entry: every other task and every objective
   * keep their value, the set of ids is the same, and repeating the update
   * changes nothing further.
   */
  lemma UpdateTaskStatusLocal(agent: Agent, taskId: string, status: string, now: string)
    requires UpdateTaskStatus(agent, taskId, status, now).Ok?
    ensures var next := UpdateTaskStatus(agent, taskId, status, now).value.0;
      next.tasks.Keys == agent.tasks.Keys && next.objectives == agent.objectives
      && (forall k :: k in agent.tasks && k != taskId ==> next.tasks[k] == agent.tasks[k])
      && next.tasks[taskId].text == agent.tasks[taskId].text
      && next.tasks[taskId].dueDate == agent.tasks[taskId].dueDate
      && UpdateTaskStatus(next, taskId, status, now).Ok?
      && UpdateTaskStatus(next, taskId, status, now).value.0 == next
  {
  }

  /** The same locality for objectives. */
  lemma UpdateObjectiveStatusLocal(agent: Agent, objectiveId: string, status: string, now: string)
    requires UpdateObjectiveStatus(agent, objectiveId, status, now).Ok?
    ensures var next := UpdateObjectiveStatus(agent, objectiveId, status, now).value.0;
      next.objectives.Keys == agent.objectives.Keys && next.tasks == agent.tasks
      && (forall k :: k in agent.objectives && k != objectiveId ==> next.objectives[k] == agent.objectives[k])
      && next.objectives[objectiveId].relatedTasks == agent.objectives[objectiveId].relatedTasks
      && UpdateObjectiveStatus(next, objectiveId, status, now).value.0 == next
  {
  }
}
