/** The birth-data form of the life K-line game: from a birth moment and a
    gender it derives the four pillars (with the traditional 23:00 day
    change), the direction of the luck cycles, the age at which they start,
    the date they start and the first luck pillar, and stores them in the
    form state.

    `new Date(text)` is a parameter: the caller passes the parsed local
    fields, or `None` for an invalid date. */
module BaziForm {
  import opened Wrappers
  import opened Text
  import opened Clock
  import opened GanZhi

  datatype Gender = Male | Female

  datatype Provider = Gemini | OpenAI

  /** The form state. */
  datatype FormData = FormData(
    name: string,
    gender: Gender,
    birthTime: string,
    birthYear: int,
    yearPillar: string,
    monthPillar: string,
    dayPillar: string,
    hourPillar: string,
    startAge: string,
    firstDaYun: string,
    luckStartDate: string,
    provider: Provider)

  const INITIAL_FORM := FormData("", Male, "1990-01-01T12:00", 1990, "", "", "", "", "6", "", "", Gemini)

  const YANG_STEMS: seq<string> := ["甲", "丙", "戊", "庚", "壬"]
  const YIN_STEMS: seq<string> := ["乙", "丁", "己", "辛", "癸"]

  // ---------------------------------------------------------------------
  // Direction of the luck cycles

  /** Forward for a man born in a yang year and for a woman born in a yin
      year; a year is yang when the first character of its pillar is one of
      甲丙戊庚壬. */
  predicate IsForward(yearPillar: string, gender: Gender) {
    var isYangYear := CharAt(yearPillar, 0) in YANG_STEMS;
    (gender == Male && isYangYear) || (gender == Female && !isYangYear)
  }

  /** The stems at even positions are the yang ones. */
  lemma YangStemsAreEven(g: int)
    requires 0 <= g < 10
    ensures TIANGAN[g] in YANG_STEMS <==> g % 2 == 0
    ensures TIANGAN[g] in YIN_STEMS <==> g % 2 == 1
  {
  }

  /** For a year pillar of the cycle, the cycles run forward exactly when
      the stem's parity matches the gender: even (yang) for men, odd (yin)
      for women. */
  lemma ForwardByStem(dt: DateTime, gender: Gender)
    requires Valid(dt)
    ensures IsForward(YearPillar(dt), gender) <==> ((gender == Male) <==> YearStem(dt) % 2 == 0)
  {
    var g := YearStem(dt);
    PillarChars(g, YearBranch(dt));
    assert CharAt(YearPillar(dt), 0) == TIANGAN[g];
    YangStemsAreEven(g);
  }

  // ---------------------------------------------------------------------
  // The jie terms around the birth year

  /** The twelve jie (the even-numbered terms 小寒, 立春, … 大雪). */
  const JIE_INDICES: seq<int> := [0, 2, 4, 6, 8, 10, 12, 14, 16, 18, 20, 22]

  /** Entry `k` of the list of jie of years `year - 1`, `year`, `year + 1`:
      jie `k % 12` of year `year - 1 + k / 12`. */
  function JieTerm(year: int, k: int): int
    requires 0 <= k < 36
  {
    SolarTerm(year - 1 + k / 12, JIE_INDICES[k % 12])
  }

  /** The 36 jie of the three years around `year`, as the form lists them. */
  function JieTerms(year: int): (r: seq<int>)
    ensures |r| == 36 && forall k :: 0 <= k < 36 ==> r[k] == JieTerm(year, k)
  {
    seq(36, k requires 0 <= k < 36 => JieTerm(year, k))
  }

  predicate StrictlyAscending(xs: seq<int>) {
    forall i, j :: 0 <= i < j < |xs| ==> xs[i] < xs[j]
  }

  /** The list is already in time order, so sorting it by time leaves it
      as it is. */
  lemma JieTermsAscending(year: int)
    ensures StrictlyAscending(JieTerms(year))
  {
    var all := JieTerms(year);
    forall i, j | 0 <= i < j < 36 ensures all[i] < all[j] {
      assert JIE_INDICES[i % 12] == 2 * (i % 12) && JIE_INDICES[j % 12] == 2 * (j % 12);
      SolarTermOrder(year - 1 + i / 12, 2 * (i % 12), year - 1 + j / 12, 2 * (j % 12));
    }
  }

  /** The nested loop that pushes, year by year, the twelve jie. */
  method CollectJieTerms(year: int) returns (all: seq<int>)
    ensures all == JieTerms(year)
  {
    all := [];
    var y := year - 1;
    while y <= year + 1
      invariant year - 1 <= y <= year + 2
      invariant |all| == 12 * (y - year + 1)
      invariant all == JieTerms(year)[..|all|]
    {
      all := PushYearJie(year, y, all);
      y := y + 1;
    }
  }

  /** The inner loop: the twelve jie of year `y` appended to the list. */
  method PushYearJie(year: int, y: int, prefix: seq<int>) returns (all: seq<int>)
    requires year - 1 <= y <= year + 1 && |prefix| == 12 * (y - year + 1)
    requires prefix == JieTerms(year)[..|prefix|]
    ensures |all| == |prefix| + 12
    ensures all == JieTerms(year)[..|all|]
  {
    all := prefix;
    var n := 0;
    while n < 12
      invariant 0 <= n <= 12
      invariant |all| == |prefix| + n
      invariant all == JieTerms(year)[..|all|]
    {
      JieTermAt(year, y, n, |all|);
      PrefixGrows(JieTerms(year), |all|);
      all := all + [SolarTerm(y, JIE_INDICES[n])];
      n := n + 1;
    }
  }

  /** A prefix one longer is the prefix and the next element. */
  lemma PrefixGrows<T>(s: seq<T>, m: nat)
    requires m < |s|
    ensures s[..m + 1] == s[..m] + [s[m]]
  {
  }

  lemma JieTermAt(year: int, y: int, n: int, k: int)
    requires year - 1 <= y <= year + 1 && 0 <= n < 12
    requires k == 12 * (y - year + 1) + n
    ensures JieTerm(year, k) == SolarTerm(y, JIE_INDICES[n])
  {
    var q := y - year + 1;
    DivModUnique(k, 12, q, n);
  }

  // ---------------------------------------------------------------------
  // The jie before and after the birth

  /** `t` lies from entry `i` up to, not including, entry `i + 1`. */
  predicate Brackets(all: seq<int>, t: int, i: int) {
    0 <= i < |all| - 1 && all[i] <= t < all[i + 1]
  }

  /** The first bracketing position at or after `from`, if any. */
  function FirstBracket(all: seq<int>, t: int, from: nat): (r: Option<nat>)
    ensures r.Some? ==> from <= r.value && Brackets(all, t, r.value)
    ensures r.Some? ==> forall j :: from <= j < r.value ==> !Brackets(all, t, j)
    ensures r.None? ==> forall j :: from <= j ==> !Brackets(all, t, j)
    decreases |all| - from
  {
    if from + 1 >= |all| then None
    else if all[from] <= t < all[from + 1] then Some(from)
    else FirstBracket(all, t, from + 1)
  }

  /** The previous and next jie: the first bracketing pair, or the first
      and the last entry when no pair brackets `t`. */
  function Bracket(all: seq<int>, t: int): (int, int)
    requires |all| > 0
  {
    match FirstBracket(all, t, 0)
    case Some(i) => (all[i], all[i + 1])
    case None => (all[0], all[|all| - 1])
  }

  /** The scan of `calculatePillars`: the defaults, replaced by the first
      pair that brackets `t`. */
  method FindBracket(all: seq<int>, t: int) returns (prevJie: int, nextJie: int)
    requires |all| > 0
    ensures (prevJie, nextJie) == Bracket(all, t)
  {
    prevJie := all[0];
    nextJie := all[|all| - 1];
    var i := 0;
    while i < |all| - 1
      invariant 0 <= i <= |all|
      invariant FirstBracket(all, t, 0) == FirstBracket(all, t, i)
      invariant prevJie == all[0] && nextJie == all[|all| - 1]
    {
      if t >= all[i] && t < all[i + 1] {
        prevJie := all[i];
        nextJie := all[i + 1];
        return;
      }
      i := i + 1;
    }
  }

  /** In an ascending list some pair brackets `t` exactly when `t` lies
      from the first entry up to, not including, the last. */
  lemma BracketExistsIff(all: seq<int>, t: int)
    requires |all| > 0 && StrictlyAscending(all)
    ensures FirstBracket(all, t, 0).Some? <==> all[0] <= t < all[|all| - 1]
  {
    if all[0] <= t < all[|all| - 1] {
      BracketFrom(all, t, 0);
    }
  }

  lemma {:induction false} BracketFrom(all: seq<int>, t: int, from: nat)
    requires from < |all| && StrictlyAscending(all)
    requires all[from] <= t < all[|all| - 1]
    ensures FirstBracket(all, t, from).Some?
    decreases |all| - from
  {
    if t >= all[from + 1] {
      BracketFrom(all, t, from + 1);
    }
  }

  /** In an ascending list at most one pair brackets `t`, so the scan finds
      the jie just before (or at) the birth and the one just after it; a
      birth outside the listed span gets the first and last jie. */
  lemma BracketMeaning(all: seq<int>, t: int)
    requires |all| > 0 && StrictlyAscending(all)
    ensures all[0] <= t < all[|all| - 1] ==>
              exists i :: Brackets(all, t, i) && Bracket(all, t) == (all[i], all[i + 1])
    ensures forall i :: Brackets(all, t, i) ==> Bracket(all, t) == (all[i], all[i + 1])
    ensures !(all[0] <= t < all[|all| - 1]) ==> Bracket(all, t) == (all[0], all[|all| - 1])
  {
    BracketExistsIff(all, t);
    forall i | Brackets(all, t, i) ensures Bracket(all, t) == (all[i], all[i + 1]) {
      var f := FirstBracket(all, t, 0).value;
    }
  }

  // ---------------------------------------------------------------------
  // Start age, start date and the first luck pillar

  /** Milliseconds in three days, one year of luck. */
  const MS_PER_LUCK_YEAR: int := 3 * MsPerDay

  /** `Math.max(1, Math.round(diffDays / 3))`: the distance in units of three
      days, rounded half up, and at least one. */
  function StartAge(diffMs: int): (age: int)
    requires diffMs >= 0
    ensures age >= 1
    ensures age > 1 ==> age * MS_PER_LUCK_YEAR - MS_PER_LUCK_YEAR / 2 <= diffMs < age * MS_PER_LUCK_YEAR + MS_PER_LUCK_YEAR / 2
    ensures age == 1 ==> diffMs < MS_PER_LUCK_YEAR + MS_PER_LUCK_YEAR / 2
  {
    var rounded := (diffMs + MS_PER_LUCK_YEAR / 2) / MS_PER_LUCK_YEAR;
    if rounded > 1 then rounded else 1
  }

  /** `Math.floor(diffDays / 3 * 365.25)`: a year of 365.25 days for every
      three days of distance, as a whole number of days. */
  function LuckOffsetDays(diffMs: int): (days: nat)
    requires diffMs >= 0
    ensures days * (4 * MS_PER_LUCK_YEAR) <= diffMs * 1461 < (days + 1) * (4 * MS_PER_LUCK_YEAR)
  {
    diffMs * 1461 / (4 * MS_PER_LUCK_YEAR)
  }

  /** `toLocaleDateString('zh-CN', { year, month: 'long', day })`. */
  function LongDate(dt: DateTime): string {
    IntText(dt.year) + "年" + IntText(dt.month + 1) + "月" + IntText(dt.day) + "日"
  }

  /** The first luck pillar: the month pillar's neighbour in the cycle,
      the next one when forward and the previous one otherwise; empty when
      the month pillar is not in the cycle. */
  function NextLuckPillar(cycle: seq<string>, month: string, forward: bool): (r: string)
    requires |cycle| == 60
    ensures month !in cycle ==> r == ""
    ensures month in cycle ==> r in cycle
  {
    var monthIndex := IndexOf(cycle, month);
    if monthIndex == -1 then "" else cycle[Neighbour(monthIndex, forward)]
  }

  /** The position after `k` on a cycle of sixty when forward, the one
      before it otherwise. */
  function Neighbour(k: int, forward: bool): (n: int)
    requires 0 <= k < 60
    ensures 0 <= n < 60
  {
    if forward then (k + 1) % 60 else (k - 1 + 60) % 60
  }

  /** Stepping forward then backward (or backward then forward) returns
      to the month pillar: the first luck pillar is its direct neighbour. */
  lemma LuckPillarReverses(cycle: seq<string>, month: string, forward: bool)
    requires |cycle| == 60 && forall i :: 0 <= i < 60 ==> IndexOf(cycle, cycle[i]) == i
    requires month in cycle
    ensures NextLuckPillar(cycle, NextLuckPillar(cycle, month, forward), !forward) == month
  {
    var k := IndexOf(cycle, month);
    var n := Neighbour(k, forward);
    assert NextLuckPillar(cycle, month, forward) == cycle[n];
    assert IndexOf(cycle, cycle[n]) == n;
    assert NextLuckPillar(cycle, cycle[n], !forward) == cycle[Neighbour(n, !forward)];
    NeighbourSteps(k, forward);
  }

  /** On a cycle of sixty, the next position's previous one and the
      previous position's next one are the position itself. */
  lemma NeighbourSteps(k: int, forward: bool)
    requires 0 <= k < 60
    ensures Neighbour(Neighbour(k, forward), !forward) == k
  {
    if forward {
      if k < 59 {
        DivModUnique(k + 1, 60, 0, k + 1);
        DivModUnique(k + 60, 60, 1, k);
      } else {
        DivModUnique(k + 1, 60, 1, 0);
        DivModUnique(59, 60, 0, 59);
      }
    } else {
      if k > 0 {
        DivModUnique(k + 59, 60, 1, k - 1);
        DivModUnique(k, 60, 0, k);
      } else {
        DivModUnique(59, 60, 0, 59);
        DivModUnique(60, 60, 1, 0);
      }
    }
  }

  /** `GANZHI_CYCLE.indexOf` finds every entry at its own index. */
  lemma CycleIndexes()
    ensures |GANZHI_CYCLE| == 60
    ensures forall i :: 0 <= i < 60 ==> IndexOf(GANZHI_CYCLE, GANZHI_CYCLE[i]) == i
  {
    CycleEntries();
    forall i | 0 <= i < 60 ensures IndexOf(GANZHI_CYCLE, GANZHI_CYCLE[i]) == i {
      CycleIndexOf(i);
    }
  }

  // ---------------------------------------------------------------------
  // calculatePillars

  /** The pillars of `getFourPillarsGanZhi(date, 'traditional')`: from 23:00
      the day and hour pillars are those of the next day. */
  function TraditionalPillars(dt: DateTime): FourPillars
    requires Valid(dt)
  {
    var base := if dt.hour == 23 then NextDay(dt) else dt;
    FourPillars(YearPillar(dt), MonthPillar(dt), DayPillar(base), HourPillar(dt, base))
  }

  /** The jie the luck cycles are counted to. */
  function TargetJie(dt: DateTime, forward: bool): int
    requires Valid(dt)
  {
    var bracket := Bracket(JieTerms(dt.year), Instant(dt));
    if forward then bracket.1 else bracket.0
  }

  /** `Math.abs(date.getTime() - targetJie.getTime())`. */
  function JieDistance(dt: DateTime, forward: bool): (d: nat)
    requires Valid(dt)
  {
    var diff := Instant(dt) - TargetJie(dt, forward);
    if diff >= 0 then diff else -diff
  }

  /** The form state after `calculatePillars(date, gender)` for a valid
      date: everything but the derived fields is kept. */
  function Calculated(prev: FormData, dt: DateTime, gender: Gender): FormData
    requires Valid(dt)
  {
    var pillars := TraditionalPillars(dt);
    var forward := IsForward(pillars.year, gender);
    var diffMs := JieDistance(dt, forward);
    prev.(birthYear := dt.year,
          yearPillar := pillars.year,
          monthPillar := pillars.month,
          dayPillar := pillars.day,
          hourPillar := pillars.hour,
          startAge := IntText(StartAge(diffMs)),
          luckStartDate := LongDate(AddDays(dt, LuckOffsetDays(diffMs))),
          firstDaYun := NextLuckPillar(GANZHI_CYCLE, pillars.month, forward))
  }

  /** What `calculatePillars` stores: four pillars of the cycle, a start age
      of at least one, and a first luck pillar that is the month pillar's
      neighbour in the direction of the cycles. */
  lemma CalculatedFields(prev: FormData, dt: DateTime, gender: Gender)
    requires Valid(dt)
    ensures var f := Calculated(prev, dt, gender);
            && f.yearPillar in GANZHI_CYCLE && f.monthPillar in GANZHI_CYCLE
            && f.dayPillar in GANZHI_CYCLE && f.hourPillar in GANZHI_CYCLE
            && f.firstDaYun in GANZHI_CYCLE
            && NextLuckPillar(GANZHI_CYCLE, f.firstDaYun, !IsForward(f.yearPillar, gender)) == f.monthPillar
            && exists age :: age >= 1 && f.startAge == IntText(age)
  {
    var base := if dt.hour == 23 then NextDay(dt) else dt;
    YearPillarInCycle(dt);
    MonthPillarInCycle(dt);
    DayPillarInCycle(base);
    HourPillarInCycle(dt, base);
    CycleIndexes();
    var forward := IsForward(YearPillar(dt), gender);
    LuckPillarReverses(GANZHI_CYCLE, MonthPillar(dt), forward);
    var age := StartAge(JieDistance(dt, forward));
    assert Calculated(prev, dt, gender).startAge == IntText(age);
  }

  /** Lists the jie around the birth year, finds the two around the birth
      and measures the distance to the one the cycles count to. */
  method MeasureToJie(dt: DateTime, isForward: bool) returns (diffMs: nat)
    requires Valid(dt)
    ensures diffMs == JieDistance(dt, isForward)
  {
    var allJies := CollectJieTerms(dt.year);
    // Sorting by time is the identity on this list (JieTermsAscending).
    var prevJie, nextJie := FindBracket(allJies, Instant(dt));
    var targetJie := if isForward then nextJie else prevJie;
    diffMs := if Instant(dt) >= targetJie then Instant(dt) - targetJie else targetJie - Instant(dt);
  }

  /** The form component's state. */
  class Form {
    var formData: FormData

    constructor ()
      ensures formData == INITIAL_FORM
    {
      formData := INITIAL_FORM;
    }

    /** `calculatePillars(date, gender)`: an invalid date leaves the form as
        it is; a valid one stores the derived fields. */
    method CalculatePillars(date: Option<DateTime>, gender: Gender)
      requires date.Some? ==> Valid(date.value)
      modifies this
      ensures date.None? ==> formData == old(formData)
      ensures date.Some? ==> formData == Calculated(old(formData), date.value, gender)
    {
      if date.None? {
        return;
      }
      var dt := date.value;
      var pillars := GetFourPillarsGanZhi(dt, Named(Traditional));
      assert pillars == TraditionalPillars(dt);

      var yearStem := CharAt(pillars.year, 0);
      var isYangYear := yearStem in YANG_STEMS;
      var isForward := (gender == Male && isYangYear) || (gender == Female && !isYangYear);

      var diffMs := MeasureToJie(dt, isForward);

      var startAge := StartAge(diffMs);
      var luckStartDateExact := AddDays(dt, LuckOffsetDays(diffMs));

      CycleEntries();
      var firstDaYun := NextLuckPillar(GANZHI_CYCLE, pillars.month, isForward);

      formData := formData.(birthYear := dt.year,
                            yearPillar := pillars.year,
                            monthPillar := pillars.month,
                            dayPillar := pillars.day,
                            hourPillar := pillars.hour,
                            startAge := IntText(startAge),
                            luckStartDate := LongDate(luckStartDateExact),
                            firstDaYun := firstDaYun);
    }

    /** The direction line the form shows for its current state. */
    function DirectionInfo(): string
      reads this
    {
      DaYunDirectionInfo(formData.yearPillar, formData.gender)
    }
  }

  // ---------------------------------------------------------------------
  // daYunDirectionInfo

  const WAITING_FOR_PILLAR := "等待输入年柱..."
  const FORWARD_TEXT := "顺行 (阳男/阴女)"
  const BACKWARD_TEXT := "逆行 (阴男/阳女)"

  /** `daYunDirectionInfo`: a placeholder without a year pillar; otherwise
      the year counts as yin only when the trimmed pillar starts with one of
      乙丁己辛癸, and the direction is forward for a yang man or a yin woman. */
  function DaYunDirectionInfo(yearPillar: string, gender: Gender): (r: string)
    ensures yearPillar == [] ==> r == WAITING_FOR_PILLAR
    ensures yearPillar != [] ==>
              (r == FORWARD_TEXT <==> ((gender == Male) <==> CharAt(Trim(yearPillar), 0) !in YIN_STEMS))
    ensures yearPillar != [] ==> r == FORWARD_TEXT || r == BACKWARD_TEXT
  {
    if yearPillar == [] then WAITING_FOR_PILLAR
    else
      var firstChar := CharAt(Trim(yearPillar), 0);
      var isYangYear := !(firstChar in YIN_STEMS);
      var isForward := if gender == Male then isYangYear else !isYangYear;
      if isForward then FORWARD_TEXT else BACKWARD_TEXT
  }

  /** Trimming keeps the first character when it is not whitespace. */
  lemma TrimKeepsFirst(s: string)
    requires s != [] && !IsJsWhitespace(s[0])
    ensures CharAt(Trim(s), 0) == [s[0]]
  {
    TrimEmptyIffBlank(s);
    assert LeadingBlanks(s) == 0;
  }

  /** No stem is whitespace. */
  lemma StemsNotBlank(g: int)
    requires 0 <= g < 10
    ensures |TIANGAN[g]| == 1 && !IsJsWhitespace(TIANGAN[g][0])
  {
  }

  /** For a year pillar that starts with a stem, the direction shown agrees
      with the direction `calculatePillars` uses, although one tests the yin
      list and the other the yang list. */
  lemma DirectionInfoAgrees(yearPillar: string, gender: Gender)
    requires yearPillar != [] && CharAt(yearPillar, 0) in TIANGAN
    ensures DaYunDirectionInfo(yearPillar, gender)
         == if IsForward(yearPillar, gender) then FORWARD_TEXT else BACKWARD_TEXT
  {
    var g := IndexOf(TIANGAN, CharAt(yearPillar, 0));
    StemsNotBlank(g);
    assert [yearPillar[0]] == TIANGAN[g];
    TrimKeepsFirst(yearPillar);
    YangStemsAreEven(g);
  }

  /** After `calculatePillars` the direction shown is the one it used. */
  lemma CalculatedDirectionShown(prev: FormData, dt: DateTime, gender: Gender)
    requires Valid(dt)
    ensures var f := Calculated(prev, dt, gender);
            DaYunDirectionInfo(f.yearPillar, gender)
            == if IsForward(f.yearPillar, gender) then FORWARD_TEXT else BACKWARD_TEXT
  {
    var g := YearStem(dt);
    PillarChars(g, YearBranch(dt));
    assert CharAt(YearPillar(dt), 0) == TIANGAN[g];
    DirectionInfoAgrees(YearPillar(dt), gender);
  }
}
