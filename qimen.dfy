/** Post-processing of a Qi Men Dun Jia chart: the external charting
    library's palace records are normalised into the program's own palace
    records, good doors and stars are classified, and the key-point lines
    are built. The library's chart is an input value. */
module QiMen {
  import opened Wrappers
  import opened Text

  /** A palace of the Luo Shu square: its number, name and direction. */
  datatype PalaceMeta = PalaceMeta(position: int, name: string, direction: string)

  /** The nine palaces in display order (the Luo Shu arrangement). */
  const NINE_PALACES: seq<PalaceMeta> := [
    PalaceMeta(4, "四宫（巽）", "东南"),
    PalaceMeta(9, "九宫（离）", "南"),
    PalaceMeta(2, "二宫（坤）", "西南"),
    PalaceMeta(3, "三宫（震）", "东"),
    PalaceMeta(5, "五宫（中）", "中央"),
    PalaceMeta(7, "七宫（兑）", "西"),
    PalaceMeta(8, "八宫（艮）", "东北"),
    PalaceMeta(1, "一宫（坎）", "北"),
    PalaceMeta(6, "六宫（乾）", "西北")
  ]

  /** The positions of the table, in order. */
  function Positions(): (ps: seq<int>)
    ensures |ps| == |NINE_PALACES|
    ensures forall i :: 0 <= i < |ps| ==> ps[i] == NINE_PALACES[i].position
  {
    seq(|NINE_PALACES|, i requires 0 <= i < |NINE_PALACES| => NINE_PALACES[i].position)
  }

  /** The table lists each of the positions 1 to 9 exactly once. */
  lemma NinePalacesExact()
    ensures |Positions()| == 9
    ensures forall i, j :: 0 <= i < j < 9 ==> Positions()[i] != Positions()[j]
    ensures forall p :: p in Positions() <==> 1 <= p <= 9
  {
    assert Positions() == [4, 9, 2, 3, 5, 7, 8, 1, 6];
  }

  /** The first entry from `k` on whose position is `position`. */
  function FindMeta(position: int, k: nat): (r: Option<PalaceMeta>)
    requires k <= |NINE_PALACES|
    ensures r.Some? <==> exists i :: k <= i < |NINE_PALACES| && NINE_PALACES[i].position == position
    ensures r.Some? ==> r.value in NINE_PALACES && r.value.position == position
    decreases |NINE_PALACES| - k
  {
    if k == |NINE_PALACES| then None
    else if NINE_PALACES[k].position == position then Some(NINE_PALACES[k])
    else FindMeta(position, k + 1)
  }

  /** `getPalaceMeta(position)`: the table entry of the position, which
      exists exactly for the positions 1 to 9. */
  function GetPalaceMeta(position: int): (r: Option<PalaceMeta>)
    ensures r.Some? <==> 1 <= position <= 9
    ensures r.Some? ==> r.value in NINE_PALACES && r.value.position == position
  {
    NinePalacesExact();
    assert forall i :: 0 <= i < 9 ==> NINE_PALACES[i].position == Positions()[i];
    FindMeta(position, 0)
  }

  /** `normalizeGate(gate)`: the placeholder "no door" becomes empty text. */
  function NormalizeGate(gate: string): (r: string)
    ensures gate == "无门" ==> r == ""
    ensures gate != "无门" ==> r == gate
  {
    if gate == "无门" then "" else gate
  }

  /** `normalizeDeity(deity)`: the placeholder "no deity" becomes empty text. */
  function NormalizeDeity(deity: string): (r: string)
    ensures deity == "无神" ==> r == ""
    ensures deity != "无神" ==> r == deity
  {
    if deity == "无神" then "" else deity
  }

  /** Normalising twice is normalising once. */
  lemma NormalizeIdempotent(gate: string, deity: string)
    ensures NormalizeGate(NormalizeGate(gate)) == NormalizeGate(gate)
    ensures NormalizeDeity(NormalizeDeity(deity)) == NormalizeDeity(deity)
  {
  }

  /** A palace as the charting library reports it. */
  datatype LibPalace = LibPalace(
    position: int, earthlyStem: string, heavenlyStem: string, star: string, gate: string, deity: string)

  /** A stem and a branch as the charting library reports them. */
  datatype LibPillar = LibPillar(stem: string, branch: string)

  /** The parts of the library's chart the program reads. */
  datatype LibChart = LibChart(
    year: LibPillar, month: LibPillar, day: LibPillar, hour: LibPillar,
    juType: string, juNumber: int, zhiFuStar: string, zhiShiGate: string,
    palaces: seq<LibPalace>)

  /** A palace of the program's chart. */
  datatype PalaceData = PalaceData(
    position: int, name: string, direction: string, earthStem: string, heavenStem: string,
    star: string, door: string, deity: string, isCenter: bool)

  datatype Escape = Yang | Yin

  /** The program's chart. `timestamp` is the chart time in milliseconds. */
  datatype QiMenChartData = QiMenChartData(
    id: string, timestamp: int,
    year: string, month: string, day: string, hour: string,
    escapeType: Escape, bureauNumber: int, dutyChief: string, dutyDoor: string,
    palaces: seq<PalaceData>, keyPoints: seq<string>)

  /** The record built for one library palace. */
  function ToPalace(p: LibPalace): PalaceData {
    var meta := GetPalaceMeta(p.position);
    PalaceData(
      p.position,
      if meta.Some? then meta.value.name else IntText(p.position) + "宫",
      if meta.Some? then meta.value.direction else "",
      p.earthlyStem, p.heavenlyStem, p.star, NormalizeGate(p.gate), NormalizeDeity(p.deity),
      p.position == 5)
  }

  /** `generatePalaces(chart)`: one record per library palace, in order. */
  function GeneratePalaces(lib: seq<LibPalace>): (r: seq<PalaceData>)
    ensures |r| == |lib|
    ensures forall i :: 0 <= i < |lib| ==> r[i] == ToPalace(lib[i])
  {
    seq(|lib|, i requires 0 <= i < |lib| => ToPalace(lib[i]))
  }

  /** Each record keeps the library palace's position, stems and star; it is
      the centre exactly when its position is 5; its door and deity are the
      normalised ones; its name and direction come from the table for the
      positions 1 to 9 and are the fallbacks otherwise. */
  lemma GeneratePalacesFields(lib: seq<LibPalace>, i: int)
    requires 0 <= i < |lib|
    ensures var r := GeneratePalaces(lib)[i];
            r.position == lib[i].position && r.earthStem == lib[i].earthlyStem &&
            r.heavenStem == lib[i].heavenlyStem && r.star == lib[i].star &&
            (r.isCenter <==> lib[i].position == 5) &&
            r.door == NormalizeGate(lib[i].gate) && r.deity == NormalizeDeity(lib[i].deity) &&
            (1 <= lib[i].position <= 9 ==> PalaceMeta(r.position, r.name, r.direction) in NINE_PALACES) &&
            (!(1 <= lib[i].position <= 9) ==> r.name == IntText(lib[i].position) + "宫" && r.direction == "")
  {
    var m := GetPalaceMeta(lib[i].position);
    if m.Some? {
      assert PalaceMeta(m.value.position, m.value.name, m.value.direction) == m.value;
    }
  }

  /** `isGoodDoor(door)`. */
  predicate IsGoodDoor(door: string) {
    door in ["开门", "休门", "生门"]
  }

  /** `isGoodStar(star)`. */
  predicate IsGoodStar(star: string) {
    star in ["天辅", "天心", "天任"]
  }

  /** The good doors are exactly the Open, Rest and Life doors, and the good
      stars exactly Tian Fu, Tian Xin and Tian Ren; the normalised empty
      door is not good. */
  lemma GoodDoorsAndStars(door: string, star: string)
    ensures IsGoodDoor(door) <==> door == "开门" || door == "休门" || door == "生门"
    ensures IsGoodStar(star) <==> star == "天辅" || star == "天心" || star == "天任"
    ensures !IsGoodDoor(NormalizeGate("无门"))
  {
  }

  /** The first palace marked as the centre. */
  function FindCenter(palaces: seq<PalaceData>): (r: Option<PalaceData>)
    ensures r.Some? <==> exists i :: 0 <= i < |palaces| && palaces[i].isCenter
    ensures r.Some? ==> r.value in palaces && r.value.isCenter
    decreases |palaces|
  {
    if palaces == [] then None
    else if palaces[0].isCenter then Some(palaces[0])
    else
      var r := FindCenter(palaces[1..]);
      assert r.Some? ==> r.value in palaces;
      assert forall i :: 1 <= i < |palaces| ==> palaces[i] == palaces[1..][i - 1];
      r
  }

  /** The palaces whose door is good, in order. */
  function GoodPalaces(palaces: seq<PalaceData>): (r: seq<PalaceData>)
    ensures forall p :: p in r <==> p in palaces && IsGoodDoor(p.door)
    ensures |r| <= |palaces|
    decreases |palaces|
  {
    if palaces == [] then []
    else (if IsGoodDoor(palaces[0].door) then [palaces[0]] else []) + GoodPalaces(palaces[1..])
  }

  /** `door.includes('生')`. */
  predicate MentionsLife(door: string) {
    '生' in door
  }

  function BureauLine(c: QiMenChartData): string {
    "当前为" + (if c.escapeType == Yang then "阳" else "阴") + "遁" + IntText(c.bureauNumber) + "局"
  }

  function DutyLine(c: QiMenChartData): string {
    "值符为" + c.dutyChief + "，值使为" + c.dutyDoor
  }

  function CenterLine(p: PalaceData): string {
    "中宫" + p.star + (if p.door != "" then p.door else "无门") + "，主事宜" +
    (if MentionsLife(p.door) then "生发" else "谨慎")
  }

  function GoodDoorLine(good: seq<PalaceData>): string {
    "吉门位于：" + Join(seq(|good|, i requires 0 <= i < |good| => good[i].direction + "方" + good[i].door), "、")
  }

  /** The key points of a chart, as `generateKeyPoints` pushes them. */
  function KeyPoints(c: QiMenChartData): seq<string> {
    var center := FindCenter(c.palaces);
    var good := GoodPalaces(c.palaces);
    [BureauLine(c), DutyLine(c)] +
    (if center.Some? then [CenterLine(center.value)] else []) +
    (if |good| > 0 then [GoodDoorLine(good)] else [])
  }

  /** The bureau line comes first and the duty line second; a centre line
      follows exactly when some palace is the centre, and a good-door line
      ends the list exactly when some palace has a good door, so there are
      two to four lines. */
  lemma KeyPointsShape(c: QiMenChartData)
    ensures var k := KeyPoints(c);
            var center := FindCenter(c.palaces);
            var good := GoodPalaces(c.palaces);
            |k| == 2 + (if center.Some? then 1 else 0) + (if |good| > 0 then 1 else 0) &&
            2 <= |k| <= 4 && k[0] == BureauLine(c) && k[1] == DutyLine(c) &&
            (center.Some? <==> exists i :: 0 <= i < |c.palaces| && c.palaces[i].isCenter) &&
            (center.Some? ==> k[2] == CenterLine(center.value)) &&
            (|good| > 0 <==> exists i :: 0 <= i < |c.palaces| && IsGoodDoor(c.palaces[i].door)) &&
            (|good| > 0 ==> k[|k| - 1] == GoodDoorLine(good))
  {
    var center := FindCenter(c.palaces);
    var good := GoodPalaces(c.palaces);
    var mid: seq<string> := if center.Some? then [CenterLine(center.value)] else [];
    var tail: seq<string> := if |good| > 0 then [GoodDoorLine(good)] else [];
    var bureau, duty := BureauLine(c), DutyLine(c);
    assert KeyPoints(c) == [bureau, duty] + mid + tail;
    ListShape(bureau, duty, mid, tail);
    GoodPalacesNonEmpty(c.palaces);
  }

  /** Two lines, then at most one, then at most one. */
  lemma ListShape<T>(a: T, b: T, mid: seq<T>, tail: seq<T>)
    requires |mid| <= 1 && |tail| <= 1
    ensures var k := [a, b] + mid + tail;
            |k| == 2 + |mid| + |tail| && k[0] == a && k[1] == b &&
            (|mid| == 1 ==> k[2] == mid[0]) && (|tail| == 1 ==> k[|k| - 1] == tail[0])
  {
  }

  /** Some palace has a good door exactly when the good palaces are not
      none. */
  lemma GoodPalacesNonEmpty(palaces: seq<PalaceData>)
    ensures |GoodPalaces(palaces)| > 0 <==> exists i :: 0 <= i < |palaces| && IsGoodDoor(palaces[i].door)
  {
    var good := GoodPalaces(palaces);
    if |good| > 0 {
      assert good[0] in good;
    }
    if exists i :: 0 <= i < |palaces| && IsGoodDoor(palaces[i].door) {
      var i :| 0 <= i < |palaces| && IsGoodDoor(palaces[i].door);
      assert palaces[i] in good;
    }
  }

  /** `generateKeyPoints(chartData)`: pushes the lines one by one. */
  method GenerateKeyPoints(c: QiMenChartData) returns (points: seq<string>)
    ensures points == KeyPoints(c)
  {
    points := [];
    points := points + [BureauLine(c)];
    points := points + [DutyLine(c)];
    var center := FindCenter(c.palaces);
    if center.Some? {
      points := points + [CenterLine(center.value)];
    }
    var good := GoodPalaces(c.palaces);
    if |good| > 0 {
      points := points + [GoodDoorLine(good)];
    }
  }

  /** A pillar written as its stem followed by its branch. */
  function PillarText(p: LibPillar): string {
    p.stem + p.branch
  }

  /** `generateQiMenChart(dateTime)` after the library call: `chart` is the
      library's chart for the time `timestamp`, and `now` stands for
      `Date.now()`. The chart is built with no key points, which are then
      computed from it and assigned. */
  method GenerateQiMenChart(chart: LibChart, timestamp: int, now: int) returns (chartData: QiMenChartData)
    ensures chartData.id == "qimen-" + IntText(now) && chartData.timestamp == timestamp
    ensures chartData.year == chart.year.stem + chart.year.branch
    ensures chartData.month == chart.month.stem + chart.month.branch
    ensures chartData.day == chart.day.stem + chart.day.branch
    ensures chartData.hour == chart.hour.stem + chart.hour.branch
    ensures chartData.escapeType == Yang <==> chart.juType == "阳遁"
    ensures chartData.bureauNumber == chart.juNumber
    ensures chartData.dutyChief == chart.zhiFuStar && chartData.dutyDoor == chart.zhiShiGate
    ensures chartData.palaces == GeneratePalaces(chart.palaces)
    ensures chartData.keyPoints == KeyPoints(chartData)
  {
    var escapeType := if chart.juType == "阳遁" then Yang else Yin;
    chartData := QiMenChartData(
      "qimen-" + IntText(now), timestamp,
      PillarText(chart.year), PillarText(chart.month), PillarText(chart.day), PillarText(chart.hour),
      escapeType, chart.juNumber, chart.zhiFuStar, chart.zhiShiGate,
      GeneratePalaces(chart.palaces), []);
    var keyPoints := GenerateKeyPoints(chartData);
    chartData := chartData.(keyPoints := keyPoints);
  }

  /** The colour classes of palaces 1 to 9. */
  const PALACE_COLORS: seq<string> := [
    "bg-blue-900/30", "bg-yellow-900/30", "bg-green-900/30", "bg-green-800/30", "bg-orange-900/30",
    "bg-gray-800/30", "bg-gray-700/30", "bg-brown-900/30", "bg-red-900/30"
  ]

  const FALLBACK_COLOR: string := "bg-gray-800/30"

  /** `getPalaceColor(position)`: `colors[position - 1] || fallback`. Every
      colour is non-empty text, so the fallback is taken exactly outside the
      positions 1 to 9. */
  function GetPalaceColor(position: int): (r: string)
    ensures 1 <= position <= 9 ==> r == PALACE_COLORS[position - 1]
    ensures !(1 <= position <= 9) ==> r == FALLBACK_COLOR
  {
    if 1 <= position <= 9 && PALACE_COLORS[position - 1] != "" then PALACE_COLORS[position - 1]
    else FALLBACK_COLOR
  }

  /** Palace 6 shares its colour with the fallback, and it is the only one
      of the nine that does. */
  lemma PalaceColorFallback(position: int)
    ensures GetPalaceColor(position) == FALLBACK_COLOR <==> position == 6 || !(1 <= position <= 9)
  {
  }
}
