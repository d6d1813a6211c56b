/** Names and structure of a six-line hexagram: the traditional name of
    each line, and the upper and lower trigrams read from the line values
    (6 old yin, 7 young yang, 8 young yin, 9 old yang), bottom line first. */
module LiuYao {
  import opened Text

  datatype YaoType = Yin | Yang

  /** The middle positions' numerals; the first and last entries are never
      used for positions 1 to 6. */
  const POSITION_NUMERALS: seq<string> := ["", "二", "三", "四", "五", ""]

  /** How `'' + undefined` reads: the numeral of a position outside 1..6. */
  const UNDEFINED_TEXT := "undefined"

  /** 九 for a yang line, 六 for a yin one. */
  function Numeral(t: YaoType): (r: string)
    ensures |r| == 1 && (r[0] == '九' <==> t == Yang)
  {
    if t == Yang then "九" else "六"
  }

  /** `getCorrectYaoName(position, type)`: 初 and 上 come before the numeral
      of the bottom and top lines; the middle lines put the numeral first,
      then their position. */
  function YaoName(position: int, t: YaoType): (r: string)
    ensures position == 1 ==> r == "初" + Numeral(t)
    ensures position == 6 ==> r == "上" + Numeral(t)
    ensures 2 <= position <= 5 ==> r == Numeral(t) + POSITION_NUMERALS[position - 1]
  {
    if position == 6 then "上" + Numeral(t)
    else if position == 1 then "初" + Numeral(t)
    else
      var index := position - 1;
      Numeral(t) + (if 0 <= index < |POSITION_NUMERALS| then POSITION_NUMERALS[index] else UNDEFINED_TEXT)
  }

  /** A line's name determines its position and its type: no two of the
      twelve names for positions 1..6 coincide. */
  lemma YaoNameInjective(p: int, t: YaoType, q: int, u: YaoType)
    requires 1 <= p <= 6 && 1 <= q <= 6
    requires YaoName(p, t) == YaoName(q, u)
    ensures p == q && t == u
  {
    var a, b := YaoName(p, t), YaoName(q, u);
    assert |a| == 2 && |b| == 2;
    assert a[0] == b[0] && a[1] == b[1];
  }

  /** The six names of one line type are pairwise distinct. */
  lemma YaoNamesDistinct(t: YaoType)
    ensures forall p, q :: 1 <= p < q <= 6 ==> YaoName(p, t) != YaoName(q, t)
  {
    forall p, q | 1 <= p < q <= 6 ensures YaoName(p, t) != YaoName(q, t) {
      if YaoName(p, t) == YaoName(q, t) {
        YaoNameInjective(p, t, q, t);
      }
    }
  }

  /** A trigram's name and the image it stands for. */
  datatype Trigram = Trigram(name: string, nature: string)

  const UNKNOWN_TRIGRAM := Trigram("未知", "未知")

  /** The eight trigrams by their lines, bottom first, 1 for yang. */
  const TRIGRAM_NAMES: map<string, Trigram> := map[
    "111" := Trigram("乾", "天"),
    "000" := Trigram("坤", "地"),
    "100" := Trigram("震", "雷"),
    "011" := Trigram("巽", "风"),
    "010" := Trigram("坎", "水"),
    "101" := Trigram("离", "火"),
    "001" := Trigram("艮", "山"),
    "110" := Trigram("兑", "泽")]

  /** A line value counts as yang when it is 7 or 9. */
  predicate IsYang(value: int) {
    value == 7 || value == 9
  }

  /** `toBinary`: one character per line, `'1'` for yang, `'0'` otherwise. */
  function ToBinary(yaos: seq<int>): (r: string)
    ensures |r| == |yaos|
    ensures forall i :: 0 <= i < |yaos| ==> r[i] == if IsYang(yaos[i]) then '1' else '0'
  {
    seq(|yaos|, i requires 0 <= i < |yaos| => if IsYang(yaos[i]) then '1' else '0')
  }

  /** Rendering lines as bits commutes with slicing the lines. */
  lemma ToBinarySlice(yaos: seq<int>, a: nat, b: nat)
    requires a <= b <= |yaos|
    ensures ToBinary(yaos)[a..b] == ToBinary(yaos[a..b])
  {
  }

  /** `trigramNames[bits] || unknown`. */
  function LookupTrigram(bits: string): Trigram {
    if bits in TRIGRAM_NAMES then TRIGRAM_NAMES[bits] else UNKNOWN_TRIGRAM
  }

  /** `getHexagramStructure`: the lower trigram from the first three lines,
      the upper one from lines four to six. */
  function HexagramStructure(yaos: seq<int>): (r: (Trigram, Trigram))
  {
    var binaryStr := ToBinary(yaos);
    var lowerTrigram := LookupTrigram(Slice(binaryStr, 0, 3));
    var upperTrigram := LookupTrigram(Slice(binaryStr, 3, 6));
    (upperTrigram, lowerTrigram)
  }

  /** Every three-line pattern of `'0'`/`'1'` is in the table. */
  lemma TrigramTableComplete(bits: string)
    requires |bits| == 3 && forall i :: 0 <= i < 3 ==> bits[i] == '0' || bits[i] == '1'
    ensures bits in TRIGRAM_NAMES
  {
    assert bits == [bits[0], bits[1], bits[2]];
  }

  /** Different patterns name different trigrams. */
  lemma TrigramNamesDistinct()
    ensures forall a, b :: a in TRIGRAM_NAMES && b in TRIGRAM_NAMES && a != b ==>
              TRIGRAM_NAMES[a].name != TRIGRAM_NAMES[b].name
  {
  }

  /** For six lines both trigrams are found, the lower one from lines 1-3
      and the upper one from lines 4-6. */
  lemma StructureOfSixLines(yaos: seq<int>)
    requires |yaos| == 6
    ensures ToBinary(yaos[..3]) in TRIGRAM_NAMES && ToBinary(yaos[3..]) in TRIGRAM_NAMES
    ensures HexagramStructure(yaos).1 == TRIGRAM_NAMES[ToBinary(yaos[..3])]
    ensures HexagramStructure(yaos).0 == TRIGRAM_NAMES[ToBinary(yaos[3..])]
    ensures HexagramStructure(yaos).0 != UNKNOWN_TRIGRAM && HexagramStructure(yaos).1 != UNKNOWN_TRIGRAM
  {
    ToBinarySlice(yaos, 0, 3);
    ToBinarySlice(yaos, 3, 6);
    assert yaos[3..6] == yaos[3..];
    TrigramTableComplete(ToBinary(yaos[..3]));
    TrigramTableComplete(ToBinary(yaos[3..]));
  }

  /** Moving and static lines of the same kind (9 and 7, 6 and 8) give the
      same structure. */
  lemma StructureIgnoresMoving(a: seq<int>, b: seq<int>)
    requires |a| == |b| && forall i :: 0 <= i < |a| ==> (IsYang(a[i]) <==> IsYang(b[i]))
    ensures HexagramStructure(a) == HexagramStructure(b)
  {
    assert ToBinary(a) == ToBinary(b);
  }
}
