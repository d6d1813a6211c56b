/** The sexagenary (stem-branch) calendar engine: the ten heavenly stems, the
    twelve earthly branches, the twelve double hours, the 24 solar terms and
    the year, month, day and hour pillars derived from a local date. */
module GanZhi {
  import opened Wrappers
  import opened Text
  import opened Clock

  /** The ten heavenly stems 甲 … 癸. */
  const TIANGAN: seq<string> := ["甲", "乙", "丙", "丁", "戊", "己", "庚", "辛", "壬", "癸"]

  /** The twelve earthly branches 子 … 亥. */
  const DIZHI: seq<string> := ["子", "丑", "寅", "卯", "辰", "巳", "午", "未", "申", "酉", "戌", "亥"]

  /** The zodiac animal of each branch, in branch order. */
  const ZODIAC_ANIMALS: seq<string> := ["鼠", "牛", "虎", "兔", "龙", "蛇", "马", "羊", "猴", "鸡", "狗", "猪"]

  /** The five phases 木 火 土 金 水. */
  const PHASES: seq<string> := ["木", "火", "土", "金", "水"]

  /** The phase of each stem and branch. */
  const WUXING_MAPPING: map<string, string> := map[
    "甲" := "木", "乙" := "木", "丙" := "火", "丁" := "火", "戊" := "土",
    "己" := "土", "庚" := "金", "辛" := "金", "壬" := "水", "癸" := "水",
    "子" := "水", "亥" := "水", "寅" := "木", "卯" := "木", "巳" := "火",
    "午" := "火", "申" := "金", "酉" := "金", "辰" := "土", "戌" := "土",
    "丑" := "土", "未" := "土"]

  /** The sixty-pillar cycle, transcribed entry by entry, ten to a row. */
  const CYCLE_ROW_0: seq<string> := ["甲子", "乙丑", "丙寅", "丁卯", "戊辰", "己巳", "庚午", "辛未", "壬申", "癸酉"]
  const CYCLE_ROW_1: seq<string> := ["甲戌", "乙亥", "丙子", "丁丑", "戊寅", "己卯", "庚辰", "辛巳", "壬午", "癸未"]
  const CYCLE_ROW_2: seq<string> := ["甲申", "乙酉", "丙戌", "丁亥", "戊子", "己丑", "庚寅", "辛卯", "壬辰", "癸巳"]
  const CYCLE_ROW_3: seq<string> := ["甲午", "乙未", "丙申", "丁酉", "戊戌", "己亥", "庚子", "辛丑", "壬寅", "癸卯"]
  const CYCLE_ROW_4: seq<string> := ["甲辰", "乙巳", "丙午", "丁未", "戊申", "己酉", "庚戌", "辛亥", "壬子", "癸丑"]
  const CYCLE_ROW_5: seq<string> := ["甲寅", "乙卯", "丙辰", "丁巳", "戊午", "己未", "庚申", "辛酉", "壬戌", "癸亥"]
  const GANZHI_CYCLE: seq<string> :=
    CYCLE_ROW_0 + CYCLE_ROW_1 + CYCLE_ROW_2 + CYCLE_ROW_3 + CYCLE_ROW_4 + CYCLE_ROW_5

  /** The pillar of stem `g` and branch `z`: `TIANGAN[g] + DIZHI[z]`. */
  function Pillar(g: int, z: int): string
    requires 0 <= g < 10 && 0 <= z < 12
  {
    TIANGAN[g] + DIZHI[z]
  }

  /** A pillar is two characters: its stem, then its branch. */
  lemma PillarChars(g: int, z: int)
    requires 0 <= g < 10 && 0 <= z < 12
    ensures |Pillar(g, z)| == 2 && [Pillar(g, z)[0]] == TIANGAN[g] && [Pillar(g, z)[1]] == DIZHI[z]
  {
    TablesDistinct();
  }

  /** Every stem and branch is one character, and no two stems (or branches)
      are equal. */
  lemma TablesDistinct()
    ensures forall g :: 0 <= g < 10 ==> |TIANGAN[g]| == 1
    ensures forall z :: 0 <= z < 12 ==> |DIZHI[z]| == 1
    ensures forall a, b :: 0 <= a < b < 10 ==> TIANGAN[a] != TIANGAN[b]
    ensures forall a, b :: 0 <= a < b < 12 ==> DIZHI[a] != DIZHI[b]
    ensures forall a, b :: 0 <= a < 10 && 0 <= b < 12 ==> TIANGAN[a] != DIZHI[b]
  {
  }

  /** A pillar determines its stem and its branch. */
  lemma PillarInjective(g: int, z: int, g': int, z': int)
    requires 0 <= g < 10 && 0 <= z < 12 && 0 <= g' < 10 && 0 <= z' < 12
    requires Pillar(g, z) == Pillar(g', z')
    ensures g == g' && z == z'
  {
    TablesDistinct();
    PillarChars(g, z);
    PillarChars(g', z');
    var p, p' := Pillar(g, z), Pillar(g', z');
    assert TIANGAN[g] == [p[0]] == [p'[0]] == TIANGAN[g'];
    assert DIZHI[z] == [p[1]] == [p'[1]] == DIZHI[z'];
  }

  /** Row `r` of the cycle. */
  function CycleRow(r: int): (row: seq<string>)
    requires 0 <= r < 6
    ensures |row| == 10
  {
    [CYCLE_ROW_0, CYCLE_ROW_1, CYCLE_ROW_2, CYCLE_ROW_3, CYCLE_ROW_4, CYCLE_ROW_5][r]
  }

  lemma CycleAt(r: int, c: int)
    requires 0 <= r < 6 && 0 <= c < 10
    ensures |GANZHI_CYCLE| == 60 && GANZHI_CYCLE[10 * r + c] == CycleRow(r)[c]
  {
    var p1 := CYCLE_ROW_0 + CYCLE_ROW_1;
    var p2 := p1 + CYCLE_ROW_2;
    var p3 := p2 + CYCLE_ROW_3;
    var p4 := p3 + CYCLE_ROW_4;
    assert GANZHI_CYCLE == p4 + CYCLE_ROW_5;
    if r < 5 {
      assert GANZHI_CYCLE[10 * r + c] == p4[10 * r + c];
      if r < 4 {
        assert p4[10 * r + c] == p3[10 * r + c];
        if r < 3 {
          assert p3[10 * r + c] == p2[10 * r + c];
          if r < 2 {
            assert p2[10 * r + c] == p1[10 * r + c];
          }
        }
      }
    }
  }

  lemma CycleRow0()
    ensures forall c :: 0 <= c < 10 ==> CYCLE_ROW_0[c] == Pillar(c, (0 + c) % 12)
  {
  }

  lemma CycleRow1()
    ensures forall c :: 0 <= c < 10 ==> CYCLE_ROW_1[c] == Pillar(c, (10 + c) % 12)
  {
  }

  lemma CycleRow2()
    ensures forall c :: 0 <= c < 10 ==> CYCLE_ROW_2[c] == Pillar(c, (20 + c) % 12)
  {
  }

  lemma CycleRow3()
    ensures forall c :: 0 <= c < 10 ==> CYCLE_ROW_3[c] == Pillar(c, (30 + c) % 12)
  {
  }

  lemma CycleRow4()
    ensures forall c :: 0 <= c < 10 ==> CYCLE_ROW_4[c] == Pillar(c, (40 + c) % 12)
  {
  }

  lemma CycleRow5()
    ensures forall c :: 0 <= c < 10 ==> CYCLE_ROW_5[c] == Pillar(c, (50 + c) % 12)
  {
  }

  lemma CycleRowEntries(r: int, c: int)
    requires 0 <= r < 6 && 0 <= c < 10
    ensures CycleRow(r)[c] == Pillar(c, (10 * r + c) % 12)
  {
    var z := (10 * r + c) % 12;
    if r == 0 {
      assert CycleRow(r) == CYCLE_ROW_0 && z == (0 + c) % 12;
      CycleRow0();
    } else if r == 1 {
      assert CycleRow(r) == CYCLE_ROW_1 && z == (10 + c) % 12;
      CycleRow1();
    } else if r == 2 {
      assert CycleRow(r) == CYCLE_ROW_2 && z == (20 + c) % 12;
      CycleRow2();
    } else if r == 3 {
      assert CycleRow(r) == CYCLE_ROW_3 && z == (30 + c) % 12;
      CycleRow3();
    } else if r == 4 {
      assert CycleRow(r) == CYCLE_ROW_4 && z == (40 + c) % 12;
      CycleRow4();
    } else {
      assert CycleRow(r) == CYCLE_ROW_5 && z == (50 + c) % 12;
      CycleRow5();
    }
  }

  /** Entry `i` of the cycle pairs stem `i mod 10` with branch `i mod 12`. */
  lemma CycleEntry(i: int)
    requires 0 <= i < 60
    ensures |GANZHI_CYCLE| == 60 && GANZHI_CYCLE[i] == Pillar(i % 10, i % 12)
  {
    var r, c := i / 10, i % 10;
    assert i == 10 * r + c;
    CycleAt(r, c);
    CycleRowEntries(r, c);
  }

  /** The whole cycle, entry by entry. */
  lemma CycleEntries()
    ensures |GANZHI_CYCLE| == 60
    ensures forall i :: 0 <= i < 60 ==> GANZHI_CYCLE[i] == Pillar(i % 10, i % 12)
  {
    CycleAt(0, 0);
    forall i | 0 <= i < 60 ensures GANZHI_CYCLE[i] == Pillar(i % 10, i % 12) {
      CycleEntry(i);
    }
  }

  /** The position of stem `g` and branch `z` in the cycle, when they have the
      same parity: the solution of i = g (mod 10), i = z (mod 12). */
  function CyclePosition(g: int, z: int): (i: int)
    requires 0 <= g < 10 && 0 <= z < 12 && g % 2 == z % 2
    ensures 0 <= i < 60 && i % 10 == g && i % 12 == z
  {
    var h := (g - z) / 2;
    var k := h % 5;
    var m := h / 5;
    assert g - z == 2 * h;
    var i := 12 * k + z;
    DivModUnique(i, 12, k, z);
    DivModUnique(i, 10, k - m, g);
    i
  }

  /** Two positions below 60 with the same residues mod 10 and mod 12 are
      equal. */
  lemma CrtUnique(a: int, b: int)
    requires 0 <= a < 60 && 0 <= b < 60 && a % 10 == b % 10 && a % 12 == b % 12
    ensures a == b
  {
    var k, j := a / 10 - b / 10, a / 12 - b / 12;
    assert a - b == 10 * k && a - b == 12 * j;
    assert -5 <= k <= 5;
    assert k == 6 * (k - j);
  }

  /** A pillar is in the cycle exactly when its stem and branch have the same
      parity (yang stems pair with yang branches, yin with yin). */
  lemma PillarInCycle(g: int, z: int)
    requires 0 <= g < 10 && 0 <= z < 12
    ensures Pillar(g, z) in GANZHI_CYCLE <==> g % 2 == z % 2
  {
    if g % 2 == z % 2 {
      var i := CyclePosition(g, z);
      CycleEntry(i);
    } else if Pillar(g, z) in GANZHI_CYCLE {
      CycleAt(0, 0);
      var i :| 0 <= i < 60 && GANZHI_CYCLE[i] == Pillar(g, z);
      CycleEntry(i);
      PillarInjective(i % 10, i % 12, g, z);
      ResidueParity(i, 10);
      ResidueParity(i, 12);
      assert false;
    }
  }

  /** `GANZHI_CYCLE.indexOf(p)` finds pillar index `i` at `i`. */
  lemma CycleIndexOf(i: int)
    requires 0 <= i < 60
    ensures IndexOf(GANZHI_CYCLE, GANZHI_CYCLE[i]) == i
  {
    CycleAt(0, 0);
    forall a, b | 0 <= a < b < 60 ensures GANZHI_CYCLE[a] != GANZHI_CYCLE[b] {
      CycleEntry(a);
      CycleEntry(b);
      if GANZHI_CYCLE[a] == GANZHI_CYCLE[b] {
        PillarInjective(a % 10, a % 12, b % 10, b % 12);
        CrtUnique(a, b);
      }
    }
    IndexOfDistinct(GANZHI_CYCLE, i);
  }

  // ---------------------------------------------------------------------
  // The twelve double hours

  /** A double hour: its name, its clock range, the hours it covers and its
      branch. */
  datatype TimeSlot = TimeSlot(name: string, range: string, hours: seq<int>, zhiIndex: int)

  /** The twelve double hours 子时 … 亥时; 子时 spans midnight. */
  const TIME_SLOTS: seq<TimeSlot> := [
    TimeSlot("子时", "23:00-01:00", [23, 0], 0),
    TimeSlot("丑时", "01:00-03:00", [1, 2], 1),
    TimeSlot("寅时", "03:00-05:00", [3, 4], 2),
    TimeSlot("卯时", "05:00-07:00", [5, 6], 3),
    TimeSlot("辰时", "07:00-09:00", [7, 8], 4),
    TimeSlot("巳时", "09:00-11:00", [9, 10], 5),
    TimeSlot("午时", "11:00-13:00", [11, 12], 6),
    TimeSlot("未时", "13:00-15:00", [13, 14], 7),
    TimeSlot("申时", "15:00-17:00", [15, 16], 8),
    TimeSlot("酉时", "17:00-19:00", [17, 18], 9),
    TimeSlot("戌时", "19:00-21:00", [19, 20], 10),
    TimeSlot("亥时", "21:00-23:00", [21, 22], 11)]

  /** The first slot, from slot `k` on, whose hours contain `hour`; slot 0 when
      none does. */
  function SlotFrom(hour: int, k: nat): (r: nat)
    requires k <= 12
    ensures r < 12
    ensures (exists j :: k <= j < 12 && hour in TIME_SLOTS[j].hours) ==>
              k <= r && hour in TIME_SLOTS[r].hours &&
              forall j :: k <= j < r ==> hour !in TIME_SLOTS[j].hours
    ensures (forall j :: k <= j < 12 ==> hour !in TIME_SLOTS[j].hours) ==> r == 0
    decreases 12 - k
  {
    if k == 12 then 0
    else if hour in TIME_SLOTS[k].hours then k
    else SlotFrom(hour, k + 1)
  }

  /** The index of the slot `getTimeSlotByHour` returns. */
  function SlotIndexOf(hour: int): nat {
    SlotFrom(hour, 0)
  }

  /** Slot `k` covers hours `(2k + 23) mod 24` and `2k`, and has branch `k`. */
  lemma SlotShape()
    ensures forall k :: 0 <= k < 12 ==>
              TIME_SLOTS[k].hours == [(2 * k + 23) % 24, 2 * k] && TIME_SLOTS[k].zhiIndex == k
  {
  }

  /** Each hour 0..23 lies in exactly one slot, slot `((h + 1) / 2) % 12`;
      23 and 0 lie in 子时. Any other number lies in none and falls back to
      slot 0. */
  lemma SlotOfHour(hour: int)
    ensures 0 <= hour < 24 ==>
              SlotIndexOf(hour) == ((hour + 1) / 2) % 12 &&
              hour in TIME_SLOTS[SlotIndexOf(hour)].hours &&
              (forall k :: 0 <= k < 12 && k != SlotIndexOf(hour) ==> hour !in TIME_SLOTS[k].hours)
    ensures !(0 <= hour < 24) ==>
              SlotIndexOf(hour) == 0 && (forall k :: 0 <= k < 12 ==> hour !in TIME_SLOTS[k].hours)
    ensures forall k :: 0 <= k < 12 ==> TIME_SLOTS[k].zhiIndex == k
  {
    SlotShape();
    var k0 := ((hour + 1) / 2) % 12;
    forall k | 0 <= k < 12
      ensures hour in TIME_SLOTS[k].hours <==> 0 <= hour < 24 && k == k0
    {
      assert hour in TIME_SLOTS[k].hours <==> hour == (2 * k + 23) % 24 || hour == 2 * k;
    }
    if 0 <= hour < 24 {
      assert hour in TIME_SLOTS[k0].hours;
    }
  }

  /** `getTimeSlotByHour`: the first slot whose hours include `hour`,
      falling back to 子时. */
  method TimeSlotByHour(hour: int) returns (slot: TimeSlot)
    ensures slot == TIME_SLOTS[SlotIndexOf(hour)]
  {
    for i := 0 to |TIME_SLOTS|
      invariant forall j :: 0 <= j < i ==> hour !in TIME_SLOTS[j].hours
    {
      if hour in TIME_SLOTS[i].hours {
        return TIME_SLOTS[i];
      }
    }
    return TIME_SLOTS[0];
  }

  /** The branch of the double hour containing `hour`. */
  function ZhiOfHour(hour: int): (z: int)
    ensures 0 <= hour < 24 ==> z == ((hour + 1) / 2) % 12
    ensures !(0 <= hour < 24) ==> z == 0
  {
    SlotOfHour(hour);
    TIME_SLOTS[SlotIndexOf(hour)].zhiIndex
  }

  /** `getZhiIndexByHour`. */
  method ZhiIndexByHour(hour: int) returns (z: int)
    ensures z == ZhiOfHour(hour)
    ensures 0 <= z < 12
  {
    var slot := TimeSlotByHour(hour);
    SlotOfHour(hour);
    z := slot.zhiIndex;
  }

  // ---------------------------------------------------------------------
  // Solar terms

  /** Minutes from 小寒 to each of the 24 solar terms of a year. */
  const S_TERM_INFO: seq<int> := [
    0, 21208, 42467, 63836, 85337, 107014, 128867, 150921, 173149, 195551,
    218072, 240693, 263343, 285961, 308477, 330856, 353050, 375027, 396749,
    418202, 439384, 460312, 481030, 501583]

  /** 525948.76 minutes, the tropical year, in milliseconds. */
  const MS_PER_SOLAR_YEAR: int := 31556925600

  /** 1900-01-06 02:05 local time, the 小寒 the table counts from. */
  function SolarTermBase(): int {
    LocalInstant(1900, 0, 6, 2, 5, 0)
  }

  /** `getSolarTerm(year, index)`: the instant of term `index` (0 is 小寒,
      2 is 立春) of `year`. */
  function SolarTerm(year: int, index: int): int
    requires 0 <= index < 24
  {
    SolarTermBase() + (year - 1900) * MS_PER_SOLAR_YEAR + S_TERM_INFO[index] * MsPerMinute
  }

  /** The table of term offsets is strictly ascending and stays within one
      solar year. */
  lemma TermTableAscending()
    ensures forall i, j :: 0 <= i < j < 24 ==> S_TERM_INFO[i] < S_TERM_INFO[j]
    ensures forall i :: 0 <= i < 24 ==> 0 <= S_TERM_INFO[i] * MsPerMinute < MS_PER_SOLAR_YEAR
  {
  }

  /** Terms are ordered first by year, then by index: within a year the
      instants increase with the index, and every term of a year precedes
      every term of a later year. */
  lemma SolarTermOrder(y1: int, i: int, y2: int, j: int)
    requires 0 <= i < 24 && 0 <= j < 24
    requires y1 < y2 || (y1 == y2 && i < j)
    ensures SolarTerm(y1, i) < SolarTerm(y2, j)
  {
    TermTableAscending();
    if y1 < y2 {
      assert (y2 - 1900) * MS_PER_SOLAR_YEAR >= (y1 - 1900) * MS_PER_SOLAR_YEAR + MS_PER_SOLAR_YEAR;
    }
  }

  /** The same term one year later lies exactly 525948.76 minutes later. */
  lemma SolarTermYearStep(year: int, index: int)
    requires 0 <= index < 24
    ensures SolarTerm(year + 1, index) - SolarTerm(year, index) == 525948 * MsPerMinute + 76 * 600
  {
  }

  // ---------------------------------------------------------------------
  // Year pillar

  /** The year the year pillar is counted from: the calendar year, or the
      one before it when the date precedes that year's 立春. */
  function YearBasis(dt: DateTime): int
    requires Valid(dt)
  {
    if Instant(dt) < SolarTerm(dt.year, 2) then dt.year - 1 else dt.year
  }

  /** The stem index of the year pillar (1984 is 甲子). */
  function YearStem(dt: DateTime): int
    requires Valid(dt)
  {
    (YearBasis(dt) - 1984) % 10
  }

  /** The branch index of the year pillar. */
  function YearBranch(dt: DateTime): int
    requires Valid(dt)
  {
    (YearBasis(dt) - 1984) % 12
  }

  /** The pillar of basis year `actualYear`, counted from 甲子 1984 with the
      negative JavaScript remainders corrected. */
  function PillarOfYear(actualYear: int): (p: string)
    ensures p == Pillar((actualYear - 1984) % 10, (actualYear - 1984) % 12)
  {
    var yearDiff := actualYear - 1984;
    var ganIndex := JsMod(yearDiff, 10);
    var zhiIndex := JsMod(yearDiff, 12);
    TIANGAN[ganIndex] + DIZHI[zhiIndex]
  }

  /** `getYearGanZhi`: the pillar of the basis year. */
  function YearPillar(dt: DateTime): (p: string)
    requires Valid(dt)
    ensures p == Pillar(YearStem(dt), YearBranch(dt))
  {
    PillarOfYear(YearBasis(dt))
  }

  /** A date on or after 立春 of 1984 and before 立春 of 1985 is in a 甲子 year;
      each later basis year advances the pillar by one cycle position. */
  lemma YearPillarOf1984(dt: DateTime)
    requires Valid(dt) && YearBasis(dt) == 1984
    ensures YearPillar(dt) == "甲子"
  {
  }

  /** The year pillar is one of the sixty. */
  lemma YearPillarInCycle(dt: DateTime)
    requires Valid(dt)
    ensures YearPillar(dt) in GANZHI_CYCLE
  {
    var d := YearBasis(dt) - 1984;
    ResidueParity(d, 10);
    ResidueParity(d, 12);
    PillarInCycle(YearStem(dt), YearBranch(dt));
  }

  // ---------------------------------------------------------------------
  // Month pillar

  /** A month boundary: the instant of a solar term and the branch of the
      month it opens. */
  datatype MonthTerm = MonthTerm(date: int, zhi: int)

  /** The thirteen month boundaries around `year`: last year's 大雪 (子), then
      this year's 小寒 (丑), 立春 (寅), … 立冬 (亥), 大雪 (子). */
  function MonthTerms(year: int): (terms: seq<MonthTerm>)
    ensures |terms| == 13
    ensures terms[0] == MonthTerm(SolarTerm(year - 1, 22), 0)
    ensures forall k :: 1 <= k < 13 ==> terms[k] == MonthTerm(SolarTerm(year, 2 * k - 2), k % 12)
  {
    seq(13, k requires 0 <= k < 13 => MonthBoundary(year, k))
  }

  /** Boundary `k` of `MonthTerms`. */
  function MonthBoundary(year: int, k: int): MonthTerm
    requires 0 <= k < 13
  {
    if k == 0 then MonthTerm(SolarTerm(year - 1, 22), 0)
    else MonthTerm(SolarTerm(year, 2 * k - 2), k % 12)
  }

  /** The boundaries are listed in strictly increasing order of instant. */
  lemma MonthTermsAscending(year: int)
    ensures forall a, b :: 0 <= a < b < 13 ==> MonthTerms(year)[a].date < MonthTerms(year)[b].date
  {
    var terms := MonthTerms(year);
    forall a, b | 0 <= a < b < 13 ensures terms[a].date < terms[b].date {
      if a == 0 {
        SolarTermOrder(year - 1, 22, year, 2 * b - 2);
      } else {
        SolarTermOrder(year, 2 * a - 2, year, 2 * b - 2);
      }
    }
  }

  /** The index of the latest boundary at or before `t`, or -1. */
  function LatestIndex(terms: seq<MonthTerm>, t: int): (k: int)
    ensures -1 <= k < |terms|
    ensures k >= 0 ==> terms[k].date <= t
    ensures forall j :: k < j < |terms| ==> t < terms[j].date
    decreases |terms|
  {
    if terms == [] then -1
    else if t >= terms[|terms| - 1].date then |terms| - 1
    else LatestIndex(terms[..|terms| - 1], t)
  }

  /** The branch of the latest boundary at or before `t`, 子 when none is. */
  function LatestZhi(terms: seq<MonthTerm>, t: int): int {
    var k := LatestIndex(terms, t);
    if k >= 0 then terms[k].zhi else 0
  }

  /** The backward scan of `getMonthGanZhi`: from the last boundary down,
      the first one at or before `t` gives the month's branch. */
  method MonthBranchScan(terms: seq<MonthTerm>, t: int) returns (monthZhi: int)
    ensures monthZhi == LatestZhi(terms, t)
  {
    monthZhi := 0;
    var i := |terms| - 1;
    while i >= 0
      invariant -1 <= i < |terms|
      invariant forall j :: i < j < |terms| ==> t < terms[j].date
      invariant monthZhi == 0
      decreases i + 1
    {
      if t >= terms[i].date {
        monthZhi := terms[i].zhi;
        LatestScanAgrees(terms, t, i);
        return;
      }
      i := i - 1;
    }
    LatestScanAgrees(terms, t, -1);
  }

  /** The latest boundary at or before `t` is the last one whose successors all
      lie after `t`. */
  lemma {:induction false} LatestScanAgrees(terms: seq<MonthTerm>, t: int, i: int)
    requires -1 <= i < |terms|
    requires i >= 0 ==> terms[i].date <= t
    requires forall j :: i < j < |terms| ==> t < terms[j].date
    ensures LatestIndex(terms, t) == i
    decreases |terms|
  {
    if terms != [] && i < |terms| - 1 {
      LatestScanAgrees(terms[..|terms| - 1], t, i);
    }
  }

  /** The branch of the month containing `dt`. */
  function MonthBranch(dt: DateTime): (z: int)
    requires Valid(dt)
    ensures 0 <= z < 12
  {
    var terms := MonthTerms(dt.year);
    var t := Instant(dt);
    var k := LatestIndex(terms, t);
    assert k >= 0 ==> 0 <= terms[k].zhi < 12;
    LatestZhi(terms, t)
  }

  /** For branches 丑 … 亥 (1..11): the month branch is `z` exactly when the
      date lies from the term opening month `z` up to, not including, the term
      opening the next month; e.g. 寅 from 立春 to 惊蛰. */
  lemma MonthBranchBetweenTerms(dt: DateTime, z: int)
    requires Valid(dt) && 1 <= z <= 11
    ensures MonthBranch(dt) == z <==>
              SolarTerm(dt.year, 2 * z - 2) <= Instant(dt) < SolarTerm(dt.year, 2 * z)
  {
    LatestZhiBetween(dt.year, Instant(dt), z);
  }

  lemma LatestZhiBetween(year: int, t: int, z: int)
    requires 1 <= z <= 11
    ensures LatestZhi(MonthTerms(year), t) == z <==>
              SolarTerm(year, 2 * z - 2) <= t < SolarTerm(year, 2 * z)
  {
    var terms := MonthTerms(year);
    assert terms[z].date == SolarTerm(year, 2 * z - 2);
    assert terms[z + 1].date == SolarTerm(year, 2 * z);
    assert forall k :: 0 <= k < 13 ==> terms[k].zhi == k % 12;
    MonthTermsAscending(year);
    LatestZhiIff(terms, t, z);
  }

  /** In thirteen ascending boundaries labelled 0, 1, …, 11, 0, branch `z`
      in 1..11 is found exactly between boundaries `z` and `z + 1`. */
  lemma LatestZhiIff(terms: seq<MonthTerm>, t: int, z: int)
    requires 1 <= z <= 11 && |terms| == 13
    requires forall k :: 0 <= k < 13 ==> terms[k].zhi == k % 12
    requires forall a, b :: 0 <= a < b < 13 ==> terms[a].date < terms[b].date
    ensures LatestZhi(terms, t) == z <==> terms[z].date <= t < terms[z + 1].date
  {
    if terms[z].date <= t < terms[z + 1].date {
      LatestScanAgrees(terms, t, z);
    }
    if LatestZhi(terms, t) == z {
      LatestZhiOnlyAt(terms, t, z);
    }
  }

  /** In the boundary list a branch 1..11 appears only at its own index. */
  lemma LatestZhiOnlyAt(terms: seq<MonthTerm>, t: int, z: int)
    requires 1 <= z <= 11 && |terms| == 13
    requires forall k :: 0 <= k < 13 ==> terms[k].zhi == k % 12
    requires LatestZhi(terms, t) == z
    ensures terms[z].date <= t < terms[z + 1].date
  {
    var k := LatestIndex(terms, t);
    assert k >= 0 && terms[k].zhi == z;
  }

  /** The stem of each year's 寅 month, for year stems 甲己, 乙庚, 丙辛, 丁壬, 戊癸. */
  const MONTH_GAN_BASE: seq<int> := [2, 4, 6, 8, 0]

  /** The stem index of the month pillar: counted from the 寅 month's stem,
      which the year stem determines. */
  function MonthStem(yearStem: int, monthZhi: int): (g: int)
    requires 0 <= yearStem < 10 && 0 <= monthZhi < 12
    ensures 0 <= g < 10 && g % 2 == monthZhi % 2
    ensures monthZhi == 2 ==> g == MONTH_GAN_BASE[yearStem % 5]
  {
    var base := MONTH_GAN_BASE[yearStem % 5];
    MonthStemParity(base, monthZhi);
    (base + (monthZhi + 10) % 12) % 10
  }

  /** Counting from an even stem keeps the parity of the branch. */
  lemma MonthStemParity(base: int, z: int)
    requires 0 <= base < 10 && base % 2 == 0 && 0 <= z < 12
    ensures ((base + (z + 10) % 12) % 10) % 2 == z % 2
  {
    var a := z + 10;
    var r := a % 12;
    ResidueParity(a, 12);
    DivModUnique(a, 2, z / 2 + 5, z % 2);
    EvenBaseParity(base, r);
  }

  /** `TIANGAN.indexOf(pillar.charAt(0))` recovers the stem of a pillar. */
  lemma StemOfPillar(g: int, z: int)
    requires 0 <= g < 10 && 0 <= z < 12
    ensures IndexOf(TIANGAN, CharAt(Pillar(g, z), 0)) == g
  {
    TablesDistinct();
    assert CharAt(Pillar(g, z), 0) == TIANGAN[g];
    IndexOfDistinct(TIANGAN, g);
  }

  /** The month pillar `getMonthGanZhi` builds from the year pillar's text and
      the month branch: the year stem is looked up from the first character. */
  function MonthPillarFrom(yearPillar: string, monthZhi: int): string
    requires 0 <= monthZhi < 12 && 0 <= IndexOf(TIANGAN, CharAt(yearPillar, 0))
  {
    var yearGan := CharAt(yearPillar, 0);
    var yearGanIndex := IndexOf(TIANGAN, yearGan);
    var baseGanIndex := MONTH_GAN_BASE[yearGanIndex % 5];
    var monthGanIndex := (baseGanIndex + (monthZhi + 10) % 12) % 10;
    TIANGAN[monthGanIndex] + DIZHI[monthZhi]
  }

  /** Looking the year stem up from a pillar's text gives the month stem of
      that pillar's stem. */
  lemma MonthPillarFromPillar(g: int, z': int, z: int)
    requires 0 <= g < 10 && 0 <= z' < 12 && 0 <= z < 12
    ensures 0 <= IndexOf(TIANGAN, CharAt(Pillar(g, z'), 0))
    ensures MonthPillarFrom(Pillar(g, z'), z) == Pillar(MonthStem(g, z), z)
  {
    StemOfPillar(g, z');
  }

  /** `getMonthGanZhi`, as a value: the stem found from the year pillar's first
      character and the branch of the latest boundary. */
  function MonthPillar(dt: DateTime): (p: string)
    requires Valid(dt)
    ensures p == Pillar(MonthStem(YearStem(dt), MonthBranch(dt)), MonthBranch(dt))
  {
    var yearPillar := YearPillar(dt);
    var monthZhi := MonthBranch(dt);
    MonthPillarFromPillar(YearStem(dt), YearBranch(dt), monthZhi);
    MonthPillarFrom(yearPillar, monthZhi)
  }

  /** `getMonthGanZhi`: lists the thirteen boundaries, scans them backwards,
      then derives the stem from the year pillar. */
  method GetMonthGanZhi(dt: DateTime) returns (p: string)
    requires Valid(dt)
    ensures p == MonthPillar(dt)
  {
    var year := dt.year;
    var monthTerms := MonthTerms(year);
    var monthZhi := MonthBranchScan(monthTerms, Instant(dt));
    var yearPillar := YearPillar(dt);
    MonthPillarFromPillar(YearStem(dt), YearBranch(dt), monthZhi);
    p := MonthPillarFrom(yearPillar, monthZhi);
  }

  /** In a 甲 or 己 year the 寅 month is 丙寅. */
  lemma JiaJiYearYinMonth(dt: DateTime)
    requires Valid(dt) && (YearStem(dt) == 0 || YearStem(dt) == 5) && MonthBranch(dt) == 2
    ensures MonthPillar(dt) == "丙寅"
  {
    assert MonthStem(YearStem(dt), 2) == 2;
    assert Pillar(2, 2) == "丙寅";
  }

  /** The month pillar is one of the sixty. */
  lemma MonthPillarInCycle(dt: DateTime)
    requires Valid(dt)
    ensures MonthPillar(dt) in GANZHI_CYCLE
  {
    PillarInCycle(MonthStem(YearStem(dt), MonthBranch(dt)), MonthBranch(dt));
  }

  // ---------------------------------------------------------------------
  // Day pillar

  /** Local noon of 2000-01-01, a 戊午 day. */
  function DayBaseNoon(): int {
    LocalInstant(2000, 0, 1, 12, 0, 0)
  }

  /** Whole days from 2000-01-01 to the date's day, measured noon to noon. */
  function DayDiff(dt: DateTime): (n: int)
    requires Valid(dt)
    ensures n == DayNumber(dt) - DaysFromCivil(2000, 0, 1)
  {
    var targetNoon := LocalInstant(dt.year, dt.month, dt.day, 12, 0, 0);
    var timeDiff := targetNoon - DayBaseNoon();
    assert timeDiff == (DayNumber(dt) - DaysFromCivil(2000, 0, 1)) * MsPerDay;
    timeDiff / MsPerDay
  }

  /** The stem index of the day pillar. */
  function DayStem(dt: DateTime): int
    requires Valid(dt)
  {
    (4 + DayDiff(dt)) % 10
  }

  /** The branch index of the day pillar. */
  function DayBranch(dt: DateTime): int
    requires Valid(dt)
  {
    (6 + DayDiff(dt)) % 12
  }

  /** `getDayGanZhi`: counts days from the 戊午 base and corrects negative
      JavaScript remainders. */
  function DayPillar(dt: DateTime): (p: string)
    requires Valid(dt)
    ensures p == Pillar(DayStem(dt), DayBranch(dt))
  {
    var dayDiff := DayDiff(dt);
    JsRemLift(4 + dayDiff, 10);
    JsRemLift(6 + dayDiff, 12);
    var ganIndex := JsRem(4 + dayDiff, 10);
    var zhiIndex := JsRem(6 + dayDiff, 12);
    var finalGanIndex := if ganIndex >= 0 then ganIndex else ganIndex + 10;
    var finalZhiIndex := if zhiIndex >= 0 then zhiIndex else zhiIndex + 12;
    TIANGAN[finalGanIndex] + DIZHI[finalZhiIndex]
  }

  /** Any time on 2000-01-01 falls on a 戊午 day. */
  lemma DayPillarOfBase(dt: DateTime)
    requires Valid(dt) && dt.year == 2000 && dt.month == 0 && dt.day == 1
    ensures DayPillar(dt) == "戊午"
  {
  }

  /** One calendar day later the stem and the branch each advance by one. */
  lemma DayPillarNextDay(dt: DateTime)
    requires Valid(dt)
    ensures DayStem(NextDay(dt)) == (DayStem(dt) + 1) % 10
    ensures DayBranch(NextDay(dt)) == (DayBranch(dt) + 1) % 12
  {
    NextDayNumber(dt);
    var d := DayDiff(dt);
    assert DayDiff(NextDay(dt)) == d + 1;
    ResidueSucc(4 + d, 10);
    ResidueSucc(6 + d, 12);
  }

  /** The day pillar is one of the sixty, before the base date as after it. */
  lemma DayPillarInCycle(dt: DateTime)
    requires Valid(dt)
    ensures DayPillar(dt) in GANZHI_CYCLE
  {
    DayResiduesSameParity(DayDiff(dt));
    PillarInCycle(DayStem(dt), DayBranch(dt));
  }

  /** The day stem and the day branch counted from 戊午 have the same parity. */
  lemma DayResiduesSameParity(d: int)
    ensures ((4 + d) % 10) % 2 == ((6 + d) % 12) % 2
  {
    var a := 4 + d;
    assert 6 + d == a + 2;
    ResidueParity(a, 10);
    ResidueParity(a + 2, 12);
    ParityPlusTwo(a);
  }

  lemma ParityPlusTwo(a: int)
    ensures (a + 2) % 2 == a % 2
  {
    DivModUnique(a + 2, 2, a / 2 + 1, a % 2);
  }

  // ---------------------------------------------------------------------
  // Hour pillar

  /** The stem of the 子 hour, for day stems 甲己, 乙庚, 丙辛, 丁壬, 戊癸. */
  const HOUR_GAN_BASE: seq<int> := [0, 2, 4, 6, 8]

  /** The stem index of the hour pillar: counted from the 子 hour's stem,
      which the day stem of `dayBase` determines. */
  function HourStem(dayStem: int, hourZhi: int): (g: int)
    requires 0 <= dayStem < 10 && 0 <= hourZhi < 12
    ensures 0 <= g < 10 && g % 2 == hourZhi % 2
    ensures hourZhi == 0 ==> g == HOUR_GAN_BASE[dayStem % 5]
  {
    var base := HOUR_GAN_BASE[dayStem % 5];
    EvenBaseParity(base, hourZhi);
    (base + hourZhi) % 10
  }

  /** Counting from an even stem keeps the parity of the count. */
  lemma EvenBaseParity(base: int, z: int)
    requires 0 <= base < 10 && base % 2 == 0 && 0 <= z
    ensures ((base + z) % 10) % 2 == z % 2
  {
    var c := base + z;
    ResidueParity(c, 10);
    DivModUnique(c, 2, base / 2 + z / 2, z % 2);
  }

  /** The hour pillar `getHourGanZhi` builds from the day pillar's text and
      the hour branch: the day stem is looked up from the first character. */
  function HourPillarFrom(dayPillar: string, zhiIndex: int): string
    requires 0 <= zhiIndex < 12 && 0 <= IndexOf(TIANGAN, CharAt(dayPillar, 0))
  {
    var dayGan := CharAt(dayPillar, 0);
    var dayGanIndex := IndexOf(TIANGAN, dayGan);
    HourPillarOfStemIndex(dayGanIndex, zhiIndex)
  }

  /** The rest of `getHourGanZhi`, once the day stem's index is known. */
  function HourPillarOfStemIndex(dayGanIndex: int, zhiIndex: int): string
    requires 0 <= dayGanIndex < 10 && 0 <= zhiIndex < 12
  {
    var baseGanIndex := HOUR_GAN_BASE[dayGanIndex % 5];
    var hourGanIndex := (baseGanIndex + zhiIndex) % 10;
    TIANGAN[hourGanIndex] + DIZHI[zhiIndex]
  }

  /** Looking the day stem up from a pillar's text gives the hour stem of that
      pillar's stem. */
  lemma HourPillarFromPillar(g: int, z': int, z: int)
    requires 0 <= g < 10 && 0 <= z' < 12 && 0 <= z < 12
    ensures 0 <= IndexOf(TIANGAN, CharAt(Pillar(g, z'), 0))
    ensures HourPillarFrom(Pillar(g, z'), z) == Pillar(HourStem(g, z), z)
  {
    StemOfPillar(g, z');
    HourPillarFromStem(Pillar(g, z'), g, z);
  }

  /** A text whose first character is stem `g` gives the hour stem of `g`. */
  lemma HourPillarFromStem(p: string, g: int, z: int)
    requires 0 <= g < 10 && 0 <= z < 12 && IndexOf(TIANGAN, CharAt(p, 0)) == g
    ensures HourPillarFrom(p, z) == Pillar(HourStem(g, z), z)
  {
    assert HourPillarFrom(p, z) == HourPillarOfStemIndex(g, z);
  }

  /** `getHourGanZhi(date, dayBaseDate)`: the branch of `dt`'s hour and a stem
      counted from the day stem of `dayBase`. */
  function HourPillar(dt: DateTime, dayBase: DateTime): (p: string)
    requires Valid(dt) && Valid(dayBase)
    ensures p == Pillar(HourStem(DayStem(dayBase), ZhiOfHour(dt.hour)), ZhiOfHour(dt.hour))
  {
    var zhiIndex := ZhiOfHour(dt.hour);
    var dayPillar := DayPillar(dayBase);
    HourPillarFromPillar(DayStem(dayBase), DayBranch(dayBase), zhiIndex);
    HourPillarFrom(dayPillar, zhiIndex)
  }

  /** On a 甲 or 己 day the 子 hour is 甲子. */
  lemma JiaJiDayZiHour(dt: DateTime, dayBase: DateTime)
    requires Valid(dt) && Valid(dayBase)
    requires DayStem(dayBase) == 0 || DayStem(dayBase) == 5
    requires dt.hour == 23 || dt.hour == 0
    ensures HourPillar(dt, dayBase) == "甲子"
  {
    assert ZhiOfHour(dt.hour) == 0;
    assert HourStem(DayStem(dayBase), 0) == 0;
    assert Pillar(0, 0) == "甲子";
  }

  /** The hour pillar is one of the sixty. */
  lemma HourPillarInCycle(dt: DateTime, dayBase: DateTime)
    requires Valid(dt) && Valid(dayBase)
    ensures HourPillar(dt, dayBase) in GANZHI_CYCLE
  {
    PillarInCycle(HourStem(DayStem(dayBase), ZhiOfHour(dt.hour)), ZhiOfHour(dt.hour));
  }

  // ---------------------------------------------------------------------
  // The four pillars and the late 子 hour

  /** How the 23:00 hour is assigned: `modern` changes day at midnight,
      `traditional` at 23:00, `earlyLate` keeps the day but takes the next
      day's hour stems. */
  datatype ZiRule = Modern | Traditional | EarlyLate

  /** The rule argument: a legacy boolean, a named rule, or nothing. */
  datatype ZiRuleArg = Flag(b: bool) | Named(rule: ZiRule) | Omitted

  /** `resolveZiRule`: `true` means traditional; `false` and an absent
      argument mean modern; a named rule is itself. */
  function ResolveZiRule(arg: ZiRuleArg): (r: ZiRule)
    ensures r == Traditional <==> arg == Flag(true) || arg == Named(Traditional)
    ensures r == EarlyLate <==> arg == Named(EarlyLate)
    ensures r == Modern <==> arg == Flag(false) || arg == Omitted || arg == Named(Modern)
  {
    match arg
    case Flag(b) => if b then Traditional else Modern
    case Omitted => Modern
    case Named(rule) => rule
  }

  /** The four pillars of a moment. */
  datatype FourPillars = FourPillars(year: string, month: string, day: string, hour: string)

  /** `getFourPillarsGanZhi(date, ziRule)`: the year and month pillars of the
      date itself; for 23:00 the traditional rule moves the day base and the
      hour base to the next day, the early/late rule only the hour base. */
  method GetFourPillarsGanZhi(dt: DateTime, ziRule: ZiRuleArg) returns (fp: FourPillars)
    requires Valid(dt)
    ensures fp.year == YearPillar(dt) && fp.month == MonthPillar(dt)
    ensures fp.day == DayPillar(if ResolveZiRule(ziRule) == Traditional && dt.hour == 23
                                then NextDay(dt) else dt)
    ensures fp.hour == HourPillar(dt, if ResolveZiRule(ziRule) != Modern && dt.hour == 23
                                      then NextDay(dt) else dt)
    ensures fp.year in GANZHI_CYCLE && fp.month in GANZHI_CYCLE
    ensures fp.day in GANZHI_CYCLE && fp.hour in GANZHI_CYCLE
  {
    var rule := ResolveZiRule(ziRule);
    var hour := dt.hour;
    var isLateZi := hour == 23;
    var dayBaseDate := dt;
    var hourBaseDate := dt;
    if rule == Traditional && isLateZi {
      dayBaseDate := AddDays(dt, 1);
      hourBaseDate := dayBaseDate;
    } else if rule == EarlyLate && isLateZi {
      hourBaseDate := AddDays(dt, 1);
    }
    var month := GetMonthGanZhi(dt);
    fp := FourPillars(YearPillar(dt), month, DayPillar(dayBaseDate), HourPillar(dt, hourBaseDate));
    YearPillarInCycle(dt);
    MonthPillarInCycle(dt);
    DayPillarInCycle(dayBaseDate);
    HourPillarInCycle(dt, hourBaseDate);
  }

  /** At 23:00 under the traditional and the early/late rules the hour pillar
      is the next day's 子 hour: its stem follows the next day's stem. Under the
      modern rule it follows the same day's stem. */
  lemma LateZiHourStem(dt: DateTime)
    requires Valid(dt) && dt.hour == 23
    ensures HourPillar(dt, NextDay(dt)) == Pillar(HourStem((DayStem(dt) + 1) % 10, 0), 0)
    ensures HourPillar(dt, dt) == Pillar(HourStem(DayStem(dt), 0), 0)
  {
    DayPillarNextDay(dt);
    assert ZhiOfHour(dt.hour) == 0;
  }

  // ---------------------------------------------------------------------
  // Phases and zodiac

  /** `getWuxing`: the phase of a stem or branch, 土 for anything else. */
  function Wuxing(ganZhi: string): (r: string)
    ensures ganZhi in WUXING_MAPPING ==> r == WUXING_MAPPING[ganZhi]
    ensures ganZhi !in WUXING_MAPPING ==> r == "土"
  {
    if ganZhi in WUXING_MAPPING && WUXING_MAPPING[ganZhi] != "" then WUXING_MAPPING[ganZhi] else "土"
  }

  /** Stems go by pairs through 木 火 土 金 水; every branch has one of the five
      phases. */
  lemma WuxingOfStems()
    ensures forall g :: 0 <= g < 10 ==> Wuxing(TIANGAN[g]) == PHASES[g / 2]
    ensures forall z :: 0 <= z < 12 ==> Wuxing(DIZHI[z]) in PHASES && DIZHI[z] in WUXING_MAPPING
  {
  }

  /** `getZodiacAnimal`: the animal of `year`, counted from the rat year 1900. */
  function ZodiacAnimal(year: int): (r: string)
    ensures r == ZODIAC_ANIMALS[(year - 1900) % 12]
  {
    var offset := JsRem(year - 1900, 12);
    JsRemLift(year - 1900, 12);
    var index := if offset >= 0 then offset else offset + 12;
    ZODIAC_ANIMALS[index]
  }

  /** The animal of a basis year is the animal of that year pillar's branch. */
  lemma ZodiacMatchesYearBranch(dt: DateTime)
    requires Valid(dt)
    ensures ZodiacAnimal(YearBasis(dt)) == ZODIAC_ANIMALS[YearBranch(dt)]
  {
    assert (YearBasis(dt) - 1900) % 12 == (YearBasis(dt) - 1984) % 12;
  }
}
