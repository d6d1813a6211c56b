/** The deterministic part of the life K-line service: checking the caller's
    input, cutting the JSON out of the model's reply, repairing it, choosing
    the first candidate that parses into a chart, and filling defaults into
    the result.

    `JSON.parse` and the `jsonrepair` library are parameters: `parse` says
    what `JSON.parse` returns or the message of the error it throws, and
    `repairLib` what `jsonrepair` returns (`None` when it throws). */
module LifeKlineService {
  import opened Wrappers
  import opened Text
  import opened GanZhi
  import opened JsValue
  import opened JsonScan

  // ---------------------------------------------------------------------
  // validateLifeKlineInput

  /** The fields the input must carry, in the order they are checked. */
  const REQUIRED_FIELDS: seq<string> :=
    ["birthTime", "yearPillar", "monthPillar", "dayPillar", "hourPillar", "startAge", "firstDaYun"]

  /** The labels of the four pillars in the error messages. */
  const PILLAR_LABELS: seq<string> := ["年柱", "月柱", "日柱", "时柱"]

  /** The message of the `TypeError` thrown by `.trim()` on a value that is
      not a string. */
  const NOT_A_STRING: string := "value.trim is not a function"

  /** A field is present when it is truthy and its text is not blank. */
  predicate Present(input: map<string, Json>, field: string, show: ShowNumber) {
    field in input && Truthy(input[field]) && Trim(ToText(input[field], show)) != []
  }

  /** The index of the first of `fields` from `k` on that is not present. */
  function MissingFrom(input: map<string, Json>, fields: seq<string>, show: ShowNumber, k: nat): (r: Option<nat>)
    requires k <= |fields|
    ensures r.None? <==> forall j :: k <= j < |fields| ==> Present(input, fields[j], show)
    ensures r.Some? ==> k <= r.value < |fields| && !Present(input, fields[r.value], show) &&
                        forall j :: k <= j < r.value ==> Present(input, fields[j], show)
    decreases |fields| - k
  {
    if k == |fields| then None
    else if !Present(input, fields[k], show) then Some(k)
    else MissingFrom(input, fields, show, k + 1)
  }

  /** `normalizePillar(v)`: `v.trim()`, which throws unless `v` is a string. */
  function NormalizePillar(v: Json): (r: Result<string, string>)
    ensures v.JStr? <==> r.Success?
    ensures v.JStr? ==> r.value == Trim(v.s)
    ensures !v.JStr? ==> r.error == NOT_A_STRING
  {
    if v.JStr? then Success(Trim(v.s)) else Failure(NOT_A_STRING)
  }

  /** The index of the first of `pillars` from `k` on that is not in `cycle`. */
  function BadPillarFrom(pillars: seq<string>, cycle: seq<string>, k: nat): (r: Option<nat>)
    requires k <= |pillars|
    ensures r.None? <==> forall j :: k <= j < |pillars| ==> pillars[j] in cycle
    ensures r.Some? ==> k <= r.value < |pillars| && pillars[r.value] !in cycle &&
                        forall j :: k <= j < r.value ==> pillars[j] in cycle
    decreases |pillars| - k
  {
    if k == |pillars| then None
    else if pillars[k] !in cycle then Some(k)
    else BadPillarFrom(pillars, cycle, k + 1)
  }

  /** The value of `field` is a string whose trimmed form is in `cycle`. */
  predicate PillarIn(input: map<string, Json>, field: string, cycle: seq<string>) {
    field in input && input[field].JStr? && Trim(input[field].s) in cycle
  }

  /** Every required field is present. */
  predicate AllPresent(input: map<string, Json>, show: ShowNumber) {
    forall j :: 0 <= j < |REQUIRED_FIELDS| ==> Present(input, REQUIRED_FIELDS[j], show)
  }

  /** The four pillars and the first luck pillar are strings whose trimmed
      forms are in `cycle`, and the start age is a finite number in [1, 20]. */
  predicate FormatsOk(input: map<string, Json>, cycle: seq<string>, show: ShowNumber, read: ReadNumber) {
    PillarIn(input, "yearPillar", cycle) && PillarIn(input, "monthPillar", cycle) &&
    PillarIn(input, "dayPillar", cycle) && PillarIn(input, "hourPillar", cycle) &&
    PillarIn(input, "firstDaYun", cycle) &&
    "startAge" in input && InRange(ToNumber(input["startAge"], show, read), 1.0, 20.0)
  }

  /** The input meets every requirement of the validator, pillars being
      checked against `cycle`. */
  predicate Acceptable(input: map<string, Json>, cycle: seq<string>, show: ShowNumber, read: ReadNumber) {
    AllPresent(input, show) && FormatsOk(input, cycle, show, read)
  }

  lemma RequiredPresent(input: map<string, Json>, show: ShowNumber)
    requires AllPresent(input, show)
    ensures "yearPillar" in input && "monthPillar" in input && "dayPillar" in input
    ensures "hourPillar" in input && "firstDaYun" in input && "startAge" in input
  {
    assert Present(input, REQUIRED_FIELDS[1], show) && Present(input, REQUIRED_FIELDS[2], show);
    assert Present(input, REQUIRED_FIELDS[3], show) && Present(input, REQUIRED_FIELDS[4], show);
    assert Present(input, REQUIRED_FIELDS[5], show) && Present(input, REQUIRED_FIELDS[6], show);
  }

  /** The four pillar checks, in the source's order: a value that is not a
      string, then the first pillar outside `cycle`, named by its label. */
  function CheckPillars(input: map<string, Json>, cycle: seq<string>): (r: Outcome<string>)
    requires "yearPillar" in input && "monthPillar" in input && "dayPillar" in input && "hourPillar" in input
    ensures r.Pass? <==> PillarIn(input, "yearPillar", cycle) && PillarIn(input, "monthPillar", cycle) &&
                         PillarIn(input, "dayPillar", cycle) && PillarIn(input, "hourPillar", cycle)
  {
    var y, m := NormalizePillar(input["yearPillar"]), NormalizePillar(input["monthPillar"]);
    var d, h := NormalizePillar(input["dayPillar"]), NormalizePillar(input["hourPillar"]);
    if y.Failure? || m.Failure? || d.Failure? || h.Failure? then Fail(NOT_A_STRING)
    else
      var pillars := [y.value, m.value, d.value, h.value];
      var bad := BadPillarFrom(pillars, cycle, 0);
      if bad.Some? then Fail(PILLAR_LABELS[bad.value] + "格式不正确：" + pillars[bad.value])
      else
        assert pillars[0] in cycle && pillars[1] in cycle && pillars[2] in cycle && pillars[3] in cycle;
        Pass
  }

  /** The checks after the presence check, in the source's order: the four
      pillars, the first luck pillar (a value that is not a string, then one
      outside `cycle`), and a start age that is not a finite number in
      [1, 20]. */
  function CheckFormats(input: map<string, Json>, cycle: seq<string>, show: ShowNumber, read: ReadNumber): (r: Outcome<string>)
    requires "yearPillar" in input && "monthPillar" in input && "dayPillar" in input
    requires "hourPillar" in input && "firstDaYun" in input && "startAge" in input
    ensures r.Pass? <==> FormatsOk(input, cycle, show, read)
  {
    var pillarCheck := CheckPillars(input, cycle);
    if pillarCheck.Fail? then pillarCheck
    else
      var firstDaYun := NormalizePillar(input["firstDaYun"]);
      if firstDaYun.Failure? then Fail(NOT_A_STRING)
      else if firstDaYun.value !in cycle then Fail("首步大运格式不正确：" + firstDaYun.value)
      else
        var startAge := ToNumber(input["startAge"], show, read);
        if !InRange(startAge, 1.0, 20.0) then Fail("起运年龄不合理：" + ToText(input["startAge"], show))
        else Pass
  }

  /** The validator with the pillars checked against `cycle`: a missing
      field is reported first, then the format checks. */
  function ValidateAgainst(input: map<string, Json>, cycle: seq<string>, show: ShowNumber, read: ReadNumber): (r: Outcome<string>)
    ensures r.Pass? <==> Acceptable(input, cycle, show, read)
    ensures var m := MissingFrom(input, REQUIRED_FIELDS, show, 0);
            m.Some? ==> r == Fail("缺少必要参数：" + REQUIRED_FIELDS[m.value])
  {
    var missing := MissingFrom(input, REQUIRED_FIELDS, show, 0);
    AllPresentIff(input, show);
    if missing.Some? then Fail("缺少必要参数：" + REQUIRED_FIELDS[missing.value])
    else
      RequiredPresent(input, show);
      CheckFormats(input, cycle, show, read)
  }

  /** Every required field is present exactly when the search for a missing
      one finds none. */
  lemma AllPresentIff(input: map<string, Json>, show: ShowNumber)
    ensures AllPresent(input, show) <==> MissingFrom(input, REQUIRED_FIELDS, show, 0).None?
  {
  }

  /** `validateLifeKlineInput(input)`: passes exactly when the input is
      acceptable, the pillars being checked against the sixty-pillar cycle;
      a missing field is reported before anything else. */
  function ValidateLifeKlineInput(input: map<string, Json>, show: ShowNumber, read: ReadNumber): (r: Outcome<string>)
    ensures r.Pass? <==> Acceptable(input, GANZHI_CYCLE, show, read)
    ensures var m := MissingFrom(input, REQUIRED_FIELDS, show, 0);
            m.Some? ==> r == Fail("缺少必要参数：" + REQUIRED_FIELDS[m.value])
  {
    ValidateAgainst(input, GANZHI_CYCLE, show, read)
  }

  /** Every stem and branch character lies in the CJK block, so none of
      them is whitespace. */
  lemma PillarCharsNotBlank(g: int, z: int)
    requires 0 <= g < 10 && 0 <= z < 12
    ensures |Pillar(g, z)| == 2
    ensures !IsJsWhitespace(Pillar(g, z)[0]) && !IsJsWhitespace(Pillar(g, z)[1])
  {
    PillarChars(g, z);
    var p := Pillar(g, z);
    assert '\U{4E00}' <= TIANGAN[g][0] <= '\U{9FFF}';
    assert '\U{4E00}' <= DIZHI[z][0] <= '\U{9FFF}';
    assert p[0] == TIANGAN[g][0] && p[1] == DIZHI[z][0];
  }

  /** Trimming a cycle entry leaves it as it is. */
  lemma CycleEntryTrimmed(p: string)
    requires p in GANZHI_CYCLE
    ensures Trim(p) == p && p != []
  {
    var i :| 0 <= i < |GANZHI_CYCLE| && GANZHI_CYCLE[i] == p;
    CycleEntries();
    CycleEntry(i);
    PillarCharsNotBlank(i % 10, i % 12);
    assert LeadingBlanks(p) == 0;
  }

  /** The input carries the given birth time, pillars and start age (and
      possibly other fields, such as the gender). */
  predicate Carries(input: map<string, Json>, birthTime: string, y: string, m: string, d: string, h: string,
                    f: string, startAge: real) {
    "birthTime" in input && input["birthTime"] == JStr(birthTime) &&
    "yearPillar" in input && input["yearPillar"] == JStr(y) &&
    "monthPillar" in input && input["monthPillar"] == JStr(m) &&
    "dayPillar" in input && input["dayPillar"] == JStr(d) &&
    "hourPillar" in input && input["hourPillar"] == JStr(h) &&
    "startAge" in input && input["startAge"] == JNum(startAge) &&
    "firstDaYun" in input && input["firstDaYun"] == JStr(f)
  }

  /** An input whose pillars are trimmed, non-empty entries of `cycle`,
      whose birth time is not blank and whose start age is in [1, 20] with a
      text that is not blank passes the validator. */
  lemma AcceptsCyclePillars(input: map<string, Json>, birthTime: string, y: string, m: string, d: string,
                            h: string, f: string, startAge: real, cycle: seq<string>, show: ShowNumber,
                            read: ReadNumber)
    requires Carries(input, birthTime, y, m, d, h, f, startAge)
    requires y in cycle && m in cycle && d in cycle && h in cycle && f in cycle
    requires Trim(y) == y && Trim(m) == m && Trim(d) == d && Trim(h) == h && Trim(f) == f
    requires y != [] && m != [] && d != [] && h != [] && f != []
    requires Trim(birthTime) != [] && 1.0 <= startAge <= 20.0 && Trim(show(startAge)) != []
    ensures ValidateAgainst(input, cycle, show, read) == Pass
  {
    CarriedPresent(input, birthTime, y, m, d, h, f, startAge, show);
    CarriedFormatsOk(input, birthTime, y, m, d, h, f, startAge, cycle, show, read);
    assert Acceptable(input, cycle, show, read);
  }

  /** Non-blank carried values make every required field present. */
  lemma CarriedPresent(input: map<string, Json>, birthTime: string, y: string, m: string, d: string,
                       h: string, f: string, startAge: real, show: ShowNumber)
    requires Carries(input, birthTime, y, m, d, h, f, startAge)
    requires y != [] && m != [] && d != [] && h != [] && f != []
    requires Trim(y) == y && Trim(m) == m && Trim(d) == d && Trim(h) == h && Trim(f) == f
    requires Trim(birthTime) != [] && 1.0 <= startAge && Trim(show(startAge)) != []
    ensures AllPresent(input, show)
  {
    RequiredFieldNames();
    forall j | 0 <= j < |REQUIRED_FIELDS| ensures Present(input, REQUIRED_FIELDS[j], show) {
      if j == 0 { PresentText(input, "birthTime", birthTime, show); }
      else if j == 1 { PresentText(input, "yearPillar", y, show); }
      else if j == 2 { PresentText(input, "monthPillar", m, show); }
      else if j == 3 { PresentText(input, "dayPillar", d, show); }
      else if j == 4 { PresentText(input, "hourPillar", h, show); }
      else if j == 5 { PresentNumber(input, "startAge", startAge, show); }
      else { PresentText(input, "firstDaYun", f, show); }
    }
  }

  /** Carried pillars that are trimmed entries of `cycle` and a carried
      start age in [1, 20] pass the format checks. */
  lemma CarriedFormatsOk(input: map<string, Json>, birthTime: string, y: string, m: string, d: string,
                         h: string, f: string, startAge: real, cycle: seq<string>, show: ShowNumber,
                         read: ReadNumber)
    requires Carries(input, birthTime, y, m, d, h, f, startAge)
    requires y in cycle && m in cycle && d in cycle && h in cycle && f in cycle
    requires Trim(y) == y && Trim(m) == m && Trim(d) == d && Trim(h) == h && Trim(f) == f
    requires 1.0 <= startAge <= 20.0
    ensures FormatsOk(input, cycle, show, read)
  {
    CarriedPillarsIn(input, birthTime, y, m, d, h, f, startAge, cycle);
    CarriedStartAge(input, birthTime, y, m, d, h, f, startAge, show, read);
  }

  /** Carried pillars that are trimmed entries of `cycle` pass the pillar
      checks. */
  lemma CarriedPillarsIn(input: map<string, Json>, birthTime: string, y: string, m: string, d: string,
                         h: string, f: string, startAge: real, cycle: seq<string>)
    requires Carries(input, birthTime, y, m, d, h, f, startAge)
    requires y in cycle && m in cycle && d in cycle && h in cycle && f in cycle
    requires Trim(y) == y && Trim(m) == m && Trim(d) == d && Trim(h) == h && Trim(f) == f
    ensures PillarIn(input, "yearPillar", cycle) && PillarIn(input, "monthPillar", cycle)
    ensures PillarIn(input, "dayPillar", cycle) && PillarIn(input, "hourPillar", cycle)
    ensures PillarIn(input, "firstDaYun", cycle)
  {
  }

  /** A carried start age in [1, 20] passes the start age check. */
  lemma CarriedStartAge(input: map<string, Json>, birthTime: string, y: string, m: string, d: string,
                        h: string, f: string, startAge: real, show: ShowNumber, read: ReadNumber)
    requires Carries(input, birthTime, y, m, d, h, f, startAge)
    requires 1.0 <= startAge <= 20.0
    ensures "startAge" in input && InRange(ToNumber(input["startAge"], show, read), 1.0, 20.0)
  {
  }

  /** A string field whose text is not blank is present. */
  lemma PresentText(input: map<string, Json>, field: string, v: string, show: ShowNumber)
    requires field in input && input[field] == JStr(v) && Trim(v) != []
    ensures Present(input, field, show)
  {
  }

  /** A non-zero number whose text is not blank is present. */
  lemma PresentNumber(input: map<string, Json>, field: string, n: real, show: ShowNumber)
    requires field in input && input[field] == JNum(n) && n != 0.0 && Trim(show(n)) != []
    ensures Present(input, field, show)
  {
  }

  /** The required fields by name. */
  lemma RequiredFieldNames()
    ensures |REQUIRED_FIELDS| == 7
    ensures REQUIRED_FIELDS[0] == "birthTime" && REQUIRED_FIELDS[1] == "yearPillar"
    ensures REQUIRED_FIELDS[2] == "monthPillar" && REQUIRED_FIELDS[3] == "dayPillar"
    ensures REQUIRED_FIELDS[4] == "hourPillar" && REQUIRED_FIELDS[5] == "startAge"
    ensures REQUIRED_FIELDS[6] == "firstDaYun"
  {
  }

  /** The four pillars and the first luck pillar this program computes pass
      the validator, together with any non-blank birth time and a start age
      in [1, 20]. */
  lemma ValidatorAcceptsComputedPillars(input: map<string, Json>, fp: FourPillars, firstDaYun: string,
                                        birthTime: string, startAge: real, show: ShowNumber, read: ReadNumber)
    requires Carries(input, birthTime, fp.year, fp.month, fp.day, fp.hour, firstDaYun, startAge)
    requires fp.year in GANZHI_CYCLE && fp.month in GANZHI_CYCLE
    requires fp.day in GANZHI_CYCLE && fp.hour in GANZHI_CYCLE && firstDaYun in GANZHI_CYCLE
    requires Trim(birthTime) != []
    requires 1.0 <= startAge <= 20.0 && Trim(show(startAge)) != []
    ensures ValidateLifeKlineInput(input, show, read) == Pass
  {
    CycleEntryTrimmed(fp.year);
    CycleEntryTrimmed(fp.month);
    CycleEntryTrimmed(fp.day);
    CycleEntryTrimmed(fp.hour);
    CycleEntryTrimmed(firstDaYun);
    AcceptsCyclePillars(input, birthTime, fp.year, fp.month, fp.day, fp.hour, firstDaYun, startAge,
                        GANZHI_CYCLE, show, read);
  }

  // ---------------------------------------------------------------------
  // extractJsonContent

  const FENCE: string := "```"

  /** The place of the first fenced block of `/```(?:json)?\s*([\s\S]*?)```/`
      in `t`, as the start and end of its captured text. The leftmost match
      starts at the first fence that has another fence at least three
      characters later; the optional `json` tag is taken when a closing fence
      follows it; the captured text begins after the whitespace and ends at
      the first closing fence. */
  function FencedBlock(t: string): Option<(nat, nat)>
  {
    var open := FindFrom(t, FENCE, 0);
    if open.None? || FindFrom(t, FENCE, open.value + 3).None? then None
    else Some((BodyStart(t, open.value), CloseFence(t, open.value)))
  }

  /** Where the optional `json` tag after the opening fence at `p` ends: it
      is taken only when a fence follows it. */
  function TagEnd(t: string, p: nat): (e: nat)
    requires p + 3 <= |t|
    ensures e == p + 3 || (e == p + 7 && OccursAt(t, "json", p + 3) && FindFrom(t, FENCE, p + 7).Some?)
    ensures e <= |t|
  {
    if OccursAt(t, "json", p + 3) && FindFrom(t, FENCE, p + 7).Some? then p + 7 else p + 3
  }

  /** Where the captured text starts: after the tag and the whitespace. */
  function BodyStart(t: string, p: nat): (w: nat)
    requires p + 3 <= |t|
    ensures TagEnd(t, p) <= w <= |t|
  {
    TagEnd(t, p) + LeadingBlanks(t[TagEnd(t, p)..])
  }

  /** Where the captured text ends: at the first fence after its start. */
  function CloseFence(t: string, p: nat): (c: nat)
    requires p + 3 <= |t| && FindFrom(t, FENCE, p + 3).Some?
    ensures BodyStart(t, p) <= c && OccursAt(t, FENCE, c)
    ensures forall j :: BodyStart(t, p) <= j < c ==> !OccursAt(t, FENCE, j)
  {
    FenceAfterBlanks(t, TagEnd(t, p), BodyStart(t, p));
    FindFrom(t, FENCE, BodyStart(t, p)).value
  }

  /** The captured text of the first fenced block lies between the first
      fence and the next fence, and there is a block exactly when some fence
      starts three or more characters after the first one. */
  lemma FencedBlockSpec(t: string)
    ensures var r := FencedBlock(t);
            (r.None? <==> (FindFrom(t, FENCE, 0).None? || FindFrom(t, FENCE, FindFrom(t, FENCE, 0).value + 3).None?)) &&
            (r.Some? ==> FindFrom(t, FENCE, 0).value + 3 <= r.value.0 <= r.value.1 <= |t| &&
                         OccursAt(t, FENCE, r.value.1) &&
                         forall j :: r.value.0 <= j < r.value.1 ==> !OccursAt(t, FENCE, j))
  {
  }

  /** A fence cannot start inside a run of whitespace, so the first fence
      after the run is the first fence after its start. */
  lemma FenceAfterBlanks(t: string, body: nat, w: nat)
    requires body <= |t| && w == body + LeadingBlanks(t[body..])
    ensures FindFrom(t, FENCE, w) == FindFrom(t, FENCE, body)
  {
    forall q | body <= q < w ensures !OccursAt(t, FENCE, q) {
      assert t[body..][q - body] == t[q];
      assert IsJsWhitespace(t[q]);
      NotFenceAt(t, q);
    }
    FindFromSkip(t, FENCE, body, w);
  }

  /** Skipping positions where the pattern does not occur does not change
      the first occurrence. */
  lemma {:induction false} FindFromSkip(s: string, pat: string, from: nat, upto: nat)
    requires from <= upto
    requires forall j :: from <= j < upto ==> !OccursAt(s, pat, j)
    ensures FindFrom(s, pat, upto) == FindFrom(s, pat, from)
    decreases upto - from
  {
    if from < upto {
      FindFromSkip(s, pat, from + 1, upto);
      assert !OccursAt(s, pat, from);
    }
  }

  /** The search finds a pattern where it starts. */
  lemma FindFromHere(s: string, pat: string, i: nat)
    requires OccursAt(s, pat, i)
    ensures FindFrom(s, pat, i) == Some(i)
  {
  }

  /** The slice from the first `{` to the last `}` when the last comes
      after the first, else the whole text. */
  function BraceSlice(t: string): (r: string)
    ensures var start, end := IndexOf(t, '{'), LastIndexOf(t, '}');
            if start != -1 && end != -1 && end > start then
              r == t[start..end + 1] && |r| >= 2 && r[0] == '{' && r[|r| - 1] == '}' &&
              '{' !in t[..start] && '}' !in t[end + 1..]
            else r == t
  {
    var start := IndexOf(t, '{');
    var end := LastIndexOf(t, '}');
    if start != -1 && end != -1 && end > start then t[start..end + 1] else t
  }

  /** `extractJsonContent(raw)`: the trimmed text of the first fenced block
      if there is one; otherwise the brace slice of the trimmed input. */
  function ExtractJsonContent(raw: string): (r: string)
    ensures FencedBlock(Trim(raw)).Some? ==>
              var b := FencedBlock(Trim(raw)).value; r == Trim(Trim(raw)[b.0..b.1])
    ensures FencedBlock(Trim(raw)).None? ==> r == BraceSlice(Trim(raw))
  {
    var t := Trim(raw);
    var fenced := FencedBlock(t);
    if fenced.Some? then Trim(t[fenced.value.0..fenced.value.1]) else BraceSlice(t)
  }

  /** Text without fences whose trimmed form is `{ … }` is returned trimmed. */
  lemma ExtractBareObject(raw: string)
    requires FindFrom(Trim(raw), FENCE, 0).None?
    requires |Trim(raw)| >= 2 && Trim(raw)[0] == '{' && Trim(raw)[|Trim(raw)| - 1] == '}'
    ensures ExtractJsonContent(raw) == Trim(raw)
  {
    var t := Trim(raw);
    assert IndexOf(t, '{') == 0;
    assert t[|t| - 1] == '}';
    assert t[0..|t| - 1 + 1] == t;
  }

  /** A trimmed non-empty text followed by a newline trims back to itself. */
  lemma TrimNewline(b: string)
    requires b != [] && Trim(b) == b
    ensures Trim(b + "\n") == b
  {
    var x := b + "\n";
    assert x[0] == b[0];
    assert LeadingBlanks(x) == 0;
    var r := Trim(x);
    assert x[|b|] == '\n';
    assert x[|b| - 1] == b[|b| - 1];
    assert r == x[..|b|] == b;
  }

  /** A reply that wraps `b` in a fence tagged `json`, on lines of its own. */
  function FencedReply(b: string): (raw: string)
    ensures |raw| == |b| + 12
  {
    "```json\n" + b + "\n```"
  }

  lemma FencedReplyChars(b: string)
    ensures var raw := FencedReply(b);
            raw[..8] == "```json\n" && raw[8..|raw| - 4] == b && raw[|raw| - 4..] == "\n```"
  {
  }

  lemma FencedReplyTrimmed(b: string)
    ensures Trim(FencedReply(b)) == FencedReply(b)
  {
    var raw := FencedReply(b);
    var n := |raw|;
    FencedReplyChars(b);
    assert raw[0] == raw[..8][0] == '`';
    assert raw[n - 1] == raw[n - 4..][3] == '`';
    assert LeadingBlanks(raw) == 0;
  }

  lemma FencedReplyFences(b: string)
    requires '`' !in b
    ensures var raw := FencedReply(b);
            FindFrom(raw, FENCE, 0) == Some(0) && FindFrom(raw, FENCE, 3) == Some(|raw| - 3) &&
            FindFrom(raw, FENCE, 7) == Some(|raw| - 3) && FindFrom(raw, FENCE, 8) == Some(|raw| - 3) &&
            OccursAt(raw, "json", 3)
  {
    var raw := FencedReply(b);
    FencedReplyChars(b);
    assert raw[0..3] == raw[..8][0..3] == FENCE;
    FindFromHere(raw, FENCE, 0);
    FencedReplyClose(b, 3);
    FencedReplyClose(b, 7);
    FencedReplyClose(b, 8);
    assert raw[3..7] == raw[..8][3..7];
  }

  /** Searching such a reply from inside the opening fence's line finds the
      closing fence. */
  lemma FencedReplyClose(b: string, from: nat)
    requires '`' !in b && 3 <= from <= |b| + 9
    ensures FindFrom(FencedReply(b), FENCE, from) == Some(|FencedReply(b)| - 3)
  {
    var raw := FencedReply(b);
    var n := |raw|;
    FencedReplyChars(b);
    assert raw[n - 3..n] == raw[n - 4..][1..] == FENCE;
    forall j | from <= j < n - 3 ensures !OccursAt(raw, FENCE, j) {
      FencedReplyInside(b, j);
    }
    FindFromHere(raw, FENCE, n - 3);
    FindFromSkip(raw, FENCE, from, n - 3);
  }

  /** Between the opening and the closing fence of such a reply there is
      no backtick, so no fence starts there. */
  lemma FencedReplyInside(b: string, j: nat)
    requires '`' !in b && 3 <= j < |b| + 9
    ensures !OccursAt(FencedReply(b), FENCE, j)
  {
    var raw := FencedReply(b);
    var n := |raw|;
    FencedReplyChars(b);
    if j < 8 {
      assert raw[j] == raw[..8][j];
    } else if j < n - 4 {
      assert raw[j] == raw[8..n - 4][j - 8] == b[j - 8];
    } else {
      assert raw[j] == raw[n - 4..][0];
    }
    NotFenceAt(raw, j);
  }

  /** A fence starts with a backtick. */
  lemma NotFenceAt(t: string, j: nat)
    requires j < |t| && t[j] != '`'
    ensures !OccursAt(t, FENCE, j)
  {
  }

  /** When the first fence is followed by the tag `json` and a later fence,
      the captured text starts after the tag and the whitespace after it. */
  lemma FencedBlockTagged(t: string, p: nat)
    requires FindFrom(t, FENCE, 0) == Some(p) && OccursAt(t, "json", p + 3)
    requires FindFrom(t, FENCE, p + 7).Some?
    ensures FindFrom(t, FENCE, p + 3).Some? && TagEnd(t, p) == p + 7
    ensures FencedBlock(t) == Some((BodyStart(t, p), CloseFence(t, p)))
  {
    assert forall j :: p + 3 <= j < p + 7 ==> !OccursAt(t, FENCE, j) by {
      forall j | p + 3 <= j < p + 7 ensures !OccursAt(t, FENCE, j) {
        assert t[j] == t[p + 3..p + 7][j - p - 3];
        NotFenceAt(t, j);
      }
    }
    FindFromSkip(t, FENCE, p + 3, p + 7);
  }

  /** A reply that wraps a trimmed text without backticks in a fence tagged
      `json` yields that text. */
  lemma ExtractFencedJson(b: string)
    requires b != [] && Trim(b) == b && '`' !in b
    ensures ExtractJsonContent(FencedReply(b)) == b
  {
    var raw := FencedReply(b);
    calc {
      ExtractJsonContent(raw);
    == { FencedReplyTrimmed(b); FencedReplyBlock(b); }
      Trim(raw[8..|b| + 9]);
    == { SliceMiddle("```json\n", b + "\n", "```");
         assert raw == "```json\n" + (b + "\n") + "```"; }
      Trim(b + "\n");
    == { TrimNewline(b); }
      b;
    }
  }

  /** The middle part of a concatenation of three. */
  lemma SliceMiddle<T>(a: seq<T>, m: seq<T>, c: seq<T>)
    ensures (a + m + c)[|a|..|a| + |m|] == m
  {
  }

  /** The captured text of such a reply runs from after the newline that
      follows the tag to the closing fence. */
  lemma FencedReplyBlock(b: string)
    requires b != [] && Trim(b) == b && '`' !in b
    ensures FencedBlock(FencedReply(b)) == Some((8, |b| + 9))
  {
    var raw := FencedReply(b);
    var n := |raw|;
    FencedReplyChars(b);
    FencedReplyFences(b);
    FencedBlockTagged(raw, 0);
    var tail := raw[7..];
    assert tail[0] == raw[..8][7] == '\n';
    assert tail[1..] == raw[8..];
    assert raw[8] == raw[8..n - 4][0] == b[0];
    assert LeadingBlanks(tail[1..]) == 0;
    assert BodyStart(raw, 0) == 8;
  }

  // ---------------------------------------------------------------------
  // repairJson and parseLifeKlineJson

  /** The output of `repairJson`: the normalisation, the four replacements
      and the four string scanners, in the source's order. */
  function Repaired(input: string): string {
    var a := Normalized(Start, input);
    var b := RemoveBom(a);
    var c := DropTrailingCommas(b);
    var d := JoinAdjacent(c, '}', '{');
    var e := JoinAdjacent(d, ']', '[');
    var f := NewlinesEscaped(Start, e);
    var g := QuotesEscaped(f, |f|);
    var h := CommasInserted(InArrays, ScanStart, g);
    CommasInserted(InObjects, ScanStart, h)
  }

  /** `repairJson(input)`: reassigns `output` step by step. */
  method RepairJson(input: string) returns (output: string)
    ensures output == Repaired(input)
  {
    output := NormalizeJsonPunctuation(input);
    output := RemoveBom(output);
    output := DropTrailingCommas(output);
    output := JoinAdjacent(output, '}', '{');
    output := JoinAdjacent(output, ']', '[');
    output := EscapeNewlinesInStrings(output);
    output := EscapeUnescapedQuotesInStrings(output);
    output := InsertMissingCommasInArrays(output);
    output := InsertMissingCommasInObjects(output);
  }

  /** Repairing the empty text gives the empty text. */
  lemma RepairedEmpty()
    ensures Repaired("") == ""
  {
    assert Normalized(Start, "") == "";
    assert DropTrailingCommas("") == "";
  }

  /** What `JSON.parse` does with a text: returns a value or throws a
      `SyntaxError` with a message. */
  datatype ParseOutcome = Parsed(value: Json) | SyntaxError(message: string)

  /** The message thrown for a parsed value without a non-empty
      `chartPoints` array. */
  const NO_CHART_POINTS: string := "模型返回的数据格式不正确（缺失 chartPoints）。"

  /** The data has a non-empty `chartPoints` array. */
  predicate HasChartPoints(data: Json) {
    data.JObj? && "chartPoints" in data.fields && data.fields["chartPoints"].JArr? &&
    |data.fields["chartPoints"].items| > 0
  }

  /** The texts tried, in order: the extracted content, its repaired form
      and the library's repair, skipping those that are absent or empty. */
  function Candidates(content: string, repairLib: string -> Option<string>): (r: seq<string>)
    ensures forall i :: 0 <= i < |r| ==> r[i] != []
    ensures |r| <= 3
  {
    var lib := repairLib(content);
    var all := [content, Repaired(content)] + (if lib.Some? then [lib.value] else []);
    NonEmpty(all)
  }

  function NonEmpty(xs: seq<string>): (r: seq<string>)
    ensures forall i :: 0 <= i < |r| ==> r[i] != []
    ensures |r| <= |xs|
    ensures forall x :: x in r <==> x in xs && x != []
  {
    if xs == [] then [] else (if xs[0] != [] then [xs[0]] else []) + NonEmpty(xs[1..])
  }

  /** One attempt: the parsed data if it has chart points, else the message
      of the error thrown. */
  function Attempt(candidate: string, parse: string -> ParseOutcome): (r: Result<Json, string>)
    ensures r.Success? <==> parse(candidate).Parsed? && HasChartPoints(parse(candidate).value)
    ensures r.Success? ==> r.value == parse(candidate).value
  {
    match parse(candidate)
    case SyntaxError(m) => Failure(m)
    case Parsed(data) => if HasChartPoints(data) then Success(data) else Failure(NO_CHART_POINTS)
  }

  /** The final error for a run of failed attempts. */
  function FinalError(lastError: Option<string>): string {
    "JSON解析失败：" + (if lastError.Some? then lastError.value else "JSON 解析失败")
  }

  /** The result of trying `cands` in order after the attempts that set
      `lastError`. */
  function FirstAccepted(cands: seq<string>, parse: string -> ParseOutcome, lastError: Option<string>): Result<Json, string>
    decreases |cands|
  {
    if cands == [] then Failure(FinalError(lastError))
    else
      var a := Attempt(cands[0], parse);
      if a.Success? then a else FirstAccepted(cands[1..], parse, Some(a.error))
  }

  /** The candidate loop returns the first candidate that parses into data
      with chart points; when there is none it fails with the last attempt's
      message (or the fallback when there was no candidate). */
  lemma {:induction false} FirstAcceptedMeaning(cands: seq<string>, parse: string -> ParseOutcome, lastError: Option<string>)
    ensures var r := FirstAccepted(cands, parse, lastError);
            (r.Success? ==> exists i :: 0 <= i < |cands| && Attempt(cands[i], parse) == r &&
                                        forall j :: 0 <= j < i ==> Attempt(cands[j], parse).Failure?) &&
            (r.Failure? <==> forall i :: 0 <= i < |cands| ==> Attempt(cands[i], parse).Failure?) &&
            (r.Failure? ==> r.error == FinalError(if cands == [] then lastError
                                                  else Some(Attempt(cands[|cands| - 1], parse).error)))
    decreases |cands|
  {
    if cands != [] {
      var a := Attempt(cands[0], parse);
      var r := FirstAccepted(cands, parse, lastError);
      if a.Success? {
        assert Attempt(cands[0], parse) == r;
      } else {
        var rest := cands[1..];
        FirstAcceptedMeaning(rest, parse, Some(a.error));
        assert r == FirstAccepted(rest, parse, Some(a.error));
        if r.Success? {
          var i :| 0 <= i < |rest| && Attempt(rest[i], parse) == r &&
                   forall j :: 0 <= j < i ==> Attempt(rest[j], parse).Failure?;
          assert Attempt(cands[i + 1], parse) == r;
          forall j | 0 <= j < i + 1 ensures Attempt(cands[j], parse).Failure? {
            if j > 0 { assert cands[j] == rest[j - 1]; }
          }
        } else {
          forall i | 0 <= i < |cands| ensures Attempt(cands[i], parse).Failure? {
            if i > 0 { assert cands[i] == rest[i - 1]; }
          }
          if rest != [] {
            assert rest[|rest| - 1] == cands[|cands| - 1];
          }
        }
      }
    }
  }

  /** `parseLifeKlineJson(raw)`. */
  method ParseLifeKlineJson(raw: string, parse: string -> ParseOutcome, repairLib: string -> Option<string>)
    returns (r: Result<Json, string>)
    ensures r == FirstAccepted(Candidates(ExtractJsonContent(raw), repairLib), parse, None)
  {
    var jsonContent := ExtractJsonContent(raw);
    var repairedByLib := repairLib(jsonContent);
    var repaired := RepairJson(jsonContent);
    var candidates := NonEmpty([jsonContent, repaired] + (if repairedByLib.Some? then [repairedByLib.value] else []));
    var lastError: Option<string> := None;
    for i := 0 to |candidates|
      invariant FirstAccepted(candidates, parse, None) == FirstAccepted(candidates[i..], parse, lastError)
    {
      assert candidates[i..][1..] == candidates[i + 1..];
      match parse(candidates[i])
      case SyntaxError(m) =>
        lastError := Some(m);
      case Parsed(data) =>
        if !HasChartPoints(data) {
          lastError := Some(NO_CHART_POINTS);
        } else {
          return Success(data);
        }
    }
    return Failure(FinalError(lastError));
  }

  // ---------------------------------------------------------------------
  // The result mapping

  /** One point of the life chart. */
  datatype ChartPoint = ChartPoint(
    age: JsNumber, year: JsNumber, ganZhi: string, daYun: Option<string>,
    open: JsNumber, close: JsNumber, high: JsNumber, low: JsNumber,
    score: JsNumber, reason: string)

  /** The message of the `TypeError` for reading a property of `null`. */
  const NULL_POINT: string := "Cannot read properties of null (reading 'age')"

  /** `chartPoints.map(...)` body for point `index`: each field converted,
      with the source's defaults for absent or `null` fields. */
  function MapPoint(point: Json, index: nat, show: ShowNumber, read: ReadNumber): (r: Result<ChartPoint, string>)
    ensures r.Failure? <==> point.JNull?
  {
    if point.JNull? then Failure(NULL_POINT)
    else
      Success(ChartPoint(
        NumberOr(point, "age", (index + 1) as real, show, read),
        NumberOr(point, "year", 0.0, show, read),
        TextOrEmpty(point, "ganZhi", show),
        if TruthyField(Field(point, "daYun")) then Some(ToText(Field(point, "daYun").value, show)) else None,
        NumberOr(point, "open", 0.0, show, read), NumberOr(point, "close", 0.0, show, read),
        NumberOr(point, "high", 0.0, show, read), NumberOr(point, "low", 0.0, show, read),
        NumberOr(point, "score", 0.0, show, read),
        TextOrEmpty(point, "reason", show)))
  }

  /** `Number(point.key ?? d)`. */
  function NumberOr(point: Json, key: string, d: real, show: ShowNumber, read: ReadNumber): (r: JsNumber)
    ensures Field(point, key).Some? && Field(point, key).value.JNum? ==> r == Finite(Field(point, key).value.n)
    ensures Field(point, key).None? || Field(point, key).value.JNull? ==> r == Finite(d)
  {
    ToNumber(OrElse(Field(point, key), JNum(d)), show, read)
  }

  /** `String(point.key ?? '')`. */
  function TextOrEmpty(point: Json, key: string, show: ShowNumber): (r: string)
    ensures Field(point, key).Some? && Field(point, key).value.JStr? ==> r == Field(point, key).value.s
    ensures Field(point, key).None? || Field(point, key).value.JNull? ==> r == ""
  {
    ToText(OrElse(Field(point, key), JStr("")), show)
  }

  /** All points mapped from index `from` on, failing at the first `null`. */
  function MapPoints(points: seq<Json>, from: nat, show: ShowNumber, read: ReadNumber): (r: Result<seq<ChartPoint>, string>)
    requires from <= |points|
    ensures r.Success? <==> forall i :: from <= i < |points| ==> !points[i].JNull?
    ensures r.Success? ==> |r.value| == |points| - from &&
                           forall i :: from <= i < |points| ==> Success(r.value[i - from]) == MapPoint(points[i], i, show, read)
    decreases |points| - from
  {
    if from == |points| then Success([])
    else
      var head := MapPoint(points[from], from, show, read);
      if head.Failure? then Failure(head.error)
      else
        var rest := MapPoints(points, from + 1, show, read);
        if rest.Failure? then rest else Success([head.value] + rest.value)
  }

  /** The analysis part of the result. A score is the value as given when
      it is truthy, and 5 otherwise. */
  datatype Analysis = Analysis(
    bazi: seq<string>,
    summary: string, summaryScore: Json,
    personality: string, personalityScore: Json,
    industry: string, industryScore: Json,
    fengShui: string, fengShuiScore: Json,
    wealth: string, wealthScore: Json,
    marriage: string, marriageScore: Json,
    health: string, healthScore: Json,
    family: string, familyScore: Json,
    crypto: string, cryptoScore: Json,
    cryptoYear: string, cryptoStyle: string)

  datatype LifeKLineResult = LifeKLineResult(chartData: seq<ChartPoint>, analysis: Analysis)

  /** `data.key ? String(data.key) : fallback`. */
  function TextOr(data: Json, key: string, fallback: string, show: ShowNumber): (r: string)
    ensures TruthyField(Field(data, key)) ==> r == ToText(data.fields[key], show)
    ensures !TruthyField(Field(data, key)) ==> r == fallback
  {
    if TruthyField(Field(data, key)) then ToText(Field(data, key).value, show) else fallback
  }

  /** `data.key || 5`. */
  function ScoreOr(data: Json, key: string): (r: Json)
    ensures TruthyField(Field(data, key)) ==> r == data.fields[key]
    ensures !TruthyField(Field(data, key)) ==> r == JNum(5.0)
  {
    if TruthyField(Field(data, key)) then Field(data, key).value else JNum(5.0)
  }

  /** The analysis with its defaults. */
  function MapAnalysis(data: Json, show: ShowNumber): Analysis {
    var bazi := Field(data, "bazi");
    Analysis(
      if bazi.Some? && bazi.value.JArr? then seq(|bazi.value.items|, i requires 0 <= i < |bazi.value.items| => ToText(bazi.value.items[i], show)) else [],
      TextOr(data, "summary", "无摘要", show), ScoreOr(data, "summaryScore"),
      TextOr(data, "personality", "无性格分析", show), ScoreOr(data, "personalityScore"),
      TextOr(data, "industry", "无", show), ScoreOr(data, "industryScore"),
      TextOr(data, "fengShui", "建议多亲近自然。", show), ScoreOr(data, "fengShuiScore"),
      TextOr(data, "wealth", "无", show), ScoreOr(data, "wealthScore"),
      TextOr(data, "marriage", "无", show), ScoreOr(data, "marriageScore"),
      TextOr(data, "health", "无", show), ScoreOr(data, "healthScore"),
      TextOr(data, "family", "无", show), ScoreOr(data, "familyScore"),
      TextOr(data, "crypto", "暂无分析", show), ScoreOr(data, "cryptoScore"),
      TextOr(data, "cryptoYear", "待定", show),
      TextOr(data, "cryptoStyle", "未知", show))
  }

  /** The result built from accepted data: one chart point per entry of
      `chartPoints`, in order, or the error of the first `null` entry. */
  function BuildResult(data: Json, show: ShowNumber, read: ReadNumber): (r: Result<LifeKLineResult, string>)
    requires HasChartPoints(data)
    ensures r.Success? ==> |r.value.chartData| == |data.fields["chartPoints"].items|
    ensures r.Success? <==> forall i :: 0 <= i < |data.fields["chartPoints"].items| ==> !data.fields["chartPoints"].items[i].JNull?
  {
    var points := MapPoints(data.fields["chartPoints"].items, 0, show, read);
    if points.Failure? then Failure(points.error)
    else Success(LifeKLineResult(points.value, MapAnalysis(data, show)))
  }

  /** A chart point with finite numbers and text fields, as a well-formed
      reply encodes it. */
  function EncodePoint(p: ChartPoint): Json
    requires p.age.Finite? && p.year.Finite? && p.open.Finite? && p.close.Finite?
    requires p.high.Finite? && p.low.Finite? && p.score.Finite?
  {
    var base := map["age" := JNum(p.age.value), "year" := JNum(p.year.value), "ganZhi" := JStr(p.ganZhi),
                    "open" := JNum(p.open.value), "close" := JNum(p.close.value),
                    "high" := JNum(p.high.value), "low" := JNum(p.low.value),
                    "score" := JNum(p.score.value), "reason" := JStr(p.reason)];
    JObj(if p.daYun.Some? then base["daYun" := JStr(p.daYun.value)] else base)
  }

  /** A point written out in full is read back as itself, whatever its
      index: the defaults never override a given field. */
  lemma MapPointRoundTrip(p: ChartPoint, index: nat, show: ShowNumber, read: ReadNumber)
    requires p.age.Finite? && p.year.Finite? && p.open.Finite? && p.close.Finite?
    requires p.high.Finite? && p.low.Finite? && p.score.Finite?
    requires p.daYun != Some("")
    ensures MapPoint(EncodePoint(p), index, show, read) == Success(p)
  {
    EncodedNumbers(p, index, show, read);
    EncodedTexts(p, show);
  }

  /** The numbers of an encoded point are read back as the point's own. */
  lemma EncodedNumbers(p: ChartPoint, index: nat, show: ShowNumber, read: ReadNumber)
    requires p.age.Finite? && p.year.Finite? && p.open.Finite? && p.close.Finite?
    requires p.high.Finite? && p.low.Finite? && p.score.Finite?
    ensures var v := EncodePoint(p);
            NumberOr(v, "age", (index + 1) as real, show, read) == p.age &&
            NumberOr(v, "year", 0.0, show, read) == p.year &&
            NumberOr(v, "open", 0.0, show, read) == p.open &&
            NumberOr(v, "close", 0.0, show, read) == p.close &&
            NumberOr(v, "high", 0.0, show, read) == p.high &&
            NumberOr(v, "low", 0.0, show, read) == p.low &&
            NumberOr(v, "score", 0.0, show, read) == p.score
  {
    EncodedFields(p);
  }

  /** The texts of an encoded point, and its luck pillar, are read back as
      the point's own. */
  lemma EncodedTexts(p: ChartPoint, show: ShowNumber)
    requires p.age.Finite? && p.year.Finite? && p.open.Finite? && p.close.Finite?
    requires p.high.Finite? && p.low.Finite? && p.score.Finite?
    requires p.daYun != Some("")
    ensures var v := EncodePoint(p);
            TextOrEmpty(v, "ganZhi", show) == p.ganZhi && TextOrEmpty(v, "reason", show) == p.reason &&
            (if TruthyField(Field(v, "daYun")) then Some(ToText(Field(v, "daYun").value, show)) else None) == p.daYun
  {
    EncodedFields(p);
  }

  /** The fields of an encoded point. */
  lemma EncodedFields(p: ChartPoint)
    requires p.age.Finite? && p.year.Finite? && p.open.Finite? && p.close.Finite?
    requires p.high.Finite? && p.low.Finite? && p.score.Finite?
    ensures var f := EncodePoint(p).fields;
            f["age"] == JNum(p.age.value) && f["year"] == JNum(p.year.value) &&
            f["ganZhi"] == JStr(p.ganZhi) && f["open"] == JNum(p.open.value) &&
            f["close"] == JNum(p.close.value) && f["high"] == JNum(p.high.value) &&
            f["low"] == JNum(p.low.value) && f["score"] == JNum(p.score.value) &&
            f["reason"] == JStr(p.reason) &&
            ("daYun" in f <==> p.daYun.Some?) && (p.daYun.Some? ==> f["daYun"] == JStr(p.daYun.value))
  {
  }

  /** An empty object point gets every default: its age is its position
      counted from one, the numbers are zero, the texts empty and there is
      no luck pillar. */
  lemma MapPointDefaults(index: nat, show: ShowNumber, read: ReadNumber)
    ensures MapPoint(JObj(map[]), index, show, read) ==
            Success(ChartPoint(Finite((index + 1) as real), Finite(0.0), "", None,
                               Finite(0.0), Finite(0.0), Finite(0.0), Finite(0.0), Finite(0.0), ""))
  {
  }

  /** Data without analysis fields gets every default text and the score 5. */
  lemma MapAnalysisDefaults(show: ShowNumber)
    ensures var a := MapAnalysis(JObj(map[]), show);
            a.bazi == [] && a.summary == "无摘要" && a.personality == "无性格分析" &&
            a.fengShui == "建议多亲近自然。" && a.crypto == "暂无分析" && a.cryptoYear == "待定" &&
            a.cryptoStyle == "未知" && a.industry == "无" && a.wealth == "无" &&
            a.summaryScore == JNum(5.0) && a.cryptoScore == JNum(5.0)
  {
  }
}
