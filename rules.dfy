/** The built-in rule quick reference: three tables of entries, chosen by game
    system, searched first for an exact and then for a partial match. */
module Rules {
  import opened Wrappers
  import opened Text
  import opened OrderedMaps

  datatype RuleEntry = RuleEntry(name: string, content: string)

  type Table = seq<(string, RuleEntry)>

  function Entry(key: string, content: string): (string, RuleEntry) {
    (key, RuleEntry(key, content))
  }

  const CocRules: Table := [
    Entry("大成功", "掷出01-05，且结果≤技能值时为大成功。大成功时自动成功，且效果拔群。"),
    Entry("大失败", "技能值<50时，掷出96-100为大失败；技能值≥50时，掷出100为大失败。大失败时自动失败，且可能有严重后果。"),
    Entry("困难成功", "检定结果≤技能值的1/2时为困难成功。"),
    Entry("极难成功", "检定结果≤技能值的1/5时为极难成功。"),
    Entry("奖励骰", "投掷1个额外的十位骰，从中选择最有利的结果。每个奖励骰可以多投1个十位骰。"),
    Entry("惩罚骰", "投掷1个额外的十位骰，从中选择最不利的结果。每个惩罚骰可以多投1个十位骰。"),
    Entry("理智检定", "面对超自然恐怖时进行的检定。成功损失较少SAN值，失败损失较多。损失5+SAN值需进行临时疯狂检定。"),
    Entry("临时疯狂", "单次损失5点或更多理智值时触发。持续1d10轮或1d10小时，期间角色行为异常。"),
    Entry("不定疯狂", "理智值降至0时触发。持续1d10小时，之后理智值恢复至1d10。"),
    Entry("永久疯狂", "理智值降至当前最大值的1/5以下时触发。角色获得永久性精神障碍。")
  ]

  const DndRules: Table := [
    Entry("优势", "投掷2个d20，取较高的结果。"),
    Entry("劣势", "投掷2个d20，取较低的结果。"),
    Entry("熟练加值", "根据角色等级获得的加值，用于熟练的技能、豁免和攻击。1-4级+2，5-8级+3，9-12级+4，13-16级+5，17-20级+6。"),
    Entry("先攻", "战斗开始时，每个参与者投1d20+敏捷调整值，决定行动顺序。"),
    Entry("攻击检定", "1d20+力量/敏捷调整值+熟练加值(如果熟练)。结果≥目标AC则命中。"),
    Entry("豁免检定", "1d20+相应属性调整值+熟练加值(如果熟练)。用于抵抗法术和特殊效果。"),
    Entry("死亡豁免", "生命值降至0时，每轮进行1d20检定。10+为成功，3次成功稳定，3次失败死亡。投1为2次失败，投20为恢复1点生命值。"),
    Entry("短休", "至少1小时的休息。可以花费生命骰恢复生命值。"),
    Entry("长休", "至少8小时的休息，其中至少6小时睡眠。恢复所有生命值和最多一半的生命骰。")
  ]

  const CommonRules: Table := [
    Entry("暗骰", "只有GM和投骰者能看到结果的掷骰。用于隐藏信息或制造悬念。"),
    Entry("公开骰", "所有人都能看到结果的掷骰。用于透明的判定。"),
    Entry("对抗检定", "双方各投一次检定，较高者获胜。用于直接竞争的情况。")
  ]

  datatype System = Coc | Dnd | All

  /** The `switch` on the lower-cased system name. */
  function SystemOf(system: string): (s: System)
    ensures s == Coc <==> ToLowerAscii(system) in {"coc", "coc7"}
    ensures s == Dnd <==> ToLowerAscii(system) in {"dnd", "dnd5e", "5e"}
  {
    match ToLowerAscii(system)
    case "coc" | "coc7" => Coc
    case "dnd" | "dnd5e" | "5e" => Dnd
    case _ => All
  }

  /** `{ ...COCRules, ...DNDRules, ...CommonRules }` */
  function Union(coc: Table, dnd: Table, common: Table): Table {
    Spread(Spread(Spread([], coc), dnd), common)
  }

  function TableOf(s: System, coc: Table, dnd: Table, common: Table): Table {
    match s
    case Coc => coc
    case Dnd => dnd
    case All => Union(coc, dnd, common)
  }

  function SelectTable(system: string): Table {
    TableOf(SystemOf(system), CocRules, DndRules, CommonRules)
  }

  predicate ExactAt(t: Table, kw: string, i: nat)
    requires i < |t|
  {
    ToLowerAscii(t[i].0) == kw || ToLowerAscii(t[i].1.name) == kw
  }

  predicate FuzzyAt(t: Table, kw: string, i: nat)
    requires i < |t|
  {
    Contains(ToLowerAscii(t[i].0), kw) || Contains(ToLowerAscii(t[i].1.name), kw)
  }

  /** The first entry, from `i` on, whose lower-cased key or name equals `kw`. */
  function FirstExact(t: Table, kw: string, i: nat): (r: Option<nat>)
    requires i <= |t|
    ensures r.Some? ==> i <= r.value < |t| && ExactAt(t, kw, r.value)
    ensures r.Some? ==> forall j :: i <= j < r.value ==> !ExactAt(t, kw, j)
    ensures r.None? ==> forall j :: i <= j < |t| ==> !ExactAt(t, kw, j)
    decreases |t| - i
  {
    if i == |t| then None
    else if ExactAt(t, kw, i) then Some(i)
    else FirstExact(t, kw, i + 1)
  }

  /** The first entry, from `i` on, whose lower-cased key or name contains `kw`. */
  function FirstFuzzy(t: Table, kw: string, i: nat): (r: Option<nat>)
    requires i <= |t|
    ensures r.Some? ==> i <= r.value < |t| && FuzzyAt(t, kw, r.value)
    ensures r.Some? ==> forall j :: i <= j < r.value ==> !FuzzyAt(t, kw, j)
    ensures r.None? ==> forall j :: i <= j < |t| ==> !FuzzyAt(t, kw, j)
    decreases |t| - i
  {
    if i == |t| then None
    else if FuzzyAt(t, kw, i) then Some(i)
    else FirstFuzzy(t, kw, i + 1)
  }

  /** The search of `getRule` over one table, with the keyword already lower-cased. */
  function Search(t: Table, kw: string): (r: Option<RuleEntry>)
  {
    match FirstExact(t, kw, 0)
    case Some(i) => Some(t[i].1)
    case None =>
      match FirstFuzzy(t, kw, 0)
      case Some(i) => Some(t[i].1)
      case None => None
  }

  /** No key and no name of the table contains the keyword. */
  predicate NoneMatch(t: Table, kw: string) {
    forall j :: 0 <= j < |t| ==> !FuzzyAt(t, kw, j)
  }

  /** The entry is one of the table whose key or name matches the keyword. */
  predicate Matches(t: Table, kw: string, e: RuleEntry) {
    exists j :: 0 <= j < |t| && t[j].1 == e && (ExactAt(t, kw, j) || FuzzyAt(t, kw, j))
  }

  /** The search with its outcome stated: `null` exactly when no entry
      matches even partially, and otherwise an entry that matches. */
  function Lookup(t: Table, kw: string): (r: Option<RuleEntry>)
    ensures r.None? <==> NoneMatch(t, kw)
    ensures r.Some? ==> Matches(t, kw, r.value)
  {
    SearchNone(t, kw);
    if Search(t, kw).Some? then SearchFound(t, kw); Search(t, kw) else None
  }

  /** `getRule(system, keyword)`; `None` is `null`. */
  function GetRule(system: string, keyword: string): (r: Option<RuleEntry>)
    ensures r.None? <==> NoneMatch(SelectTable(system), ToLowerAscii(keyword))
    ensures r.Some? ==> Matches(SelectTable(system), ToLowerAscii(keyword), r.value)
  {
    Lookup(SelectTable(system), ToLowerAscii(keyword))
  }

  /** An exact match anywhere in the table wins over every partial match,
      even one that comes earlier. */
  lemma ExactBeatsFuzzy(t: Table, kw: string, i: nat)
    requires i < |t| && ExactAt(t, kw, i)
    ensures exists j :: 0 <= j <= i && Search(t, kw) == Some(t[j].1) && ExactAt(t, kw, j)
  {
    var j := FirstExact(t, kw, 0).value;
    assert Search(t, kw) == Some(t[j].1);
  }

  /** Without an exact match, the first entry whose key or name contains the
      keyword is returned. */
  lemma FuzzyWhenNoExact(t: Table, kw: string, i: nat)
    requires i < |t| && FuzzyAt(t, kw, i)
    requires forall j :: 0 <= j < |t| ==> !ExactAt(t, kw, j)
    requires forall j :: 0 <= j < i ==> !FuzzyAt(t, kw, j)
    ensures Search(t, kw) == Some(t[i].1)
  {
    var f := FirstFuzzy(t, kw, 0);
    assert f == Some(i);
  }

  /** `null` exactly when no key and no name contains the keyword. */
  lemma SearchNone(t: Table, kw: string)
    ensures Search(t, kw).None? <==> forall j :: 0 <= j < |t| ==> !FuzzyAt(t, kw, j)
  {
    if e :| 0 <= e < |t| && ExactAt(t, kw, e) {
      assert StartsWith(ToLowerAscii(t[e].0)[0..], kw) || StartsWith(ToLowerAscii(t[e].1.name)[0..], kw);
      assert FuzzyAt(t, kw, e);
    }
  }

  /** A result is always an entry of the table that matches the keyword at least partially. */
  lemma SearchFound(t: Table, kw: string)
    requires Search(t, kw).Some?
    ensures exists j :: 0 <= j < |t| && t[j].1 == Search(t, kw).value && (ExactAt(t, kw, j) || FuzzyAt(t, kw, j))
  {
    match FirstExact(t, kw, 0)
    case Some(i) =>
    case None =>
  }

  /** The empty keyword is contained in every key, so it selects the first entry. */
  lemma EmptyKeywordFirstEntry(t: Table)
    requires t != [] && forall j :: 0 <= j < |t| ==> t[j].0 != [] && t[j].1.name != []
    ensures Search(t, "") == Some(t[0].1)
  {
    forall j | 0 <= j < |t|
      ensures !ExactAt(t, "", j)
    {
      assert |ToLowerAscii(t[j].0)| == |t[j].0|;
    }
    assert StartsWith(ToLowerAscii(t[0].0)[0..], "");
    FuzzyWhenNoExact(t, "", 0);
  }

  /** `listRules(system)`: the keys of the selected table, in its order. */
  function ListRules(system: string): (ks: seq<string>)
    ensures |ks| == |SelectTable(system)|
    ensures forall i :: 0 <= i < |ks| ==> ks[i] == SelectTable(system)[i].0
  {
    Keys(SelectTable(system))
  }

  /** No key of `more` is already a key of `base`. */
  predicate Disjoint(base: Table, more: Table) {
    forall i, j :: 0 <= i < |base| && 0 <= j < |more| ==> base[i].0 != more[j].0
  }

  lemma KeysAppend(a: Table, b: Table)
    ensures Keys(a + b) == Keys(a) + Keys(b)
  {
  }

  lemma NotAKey(base: Table, k: string)
    requires forall i :: 0 <= i < |base| ==> base[i].0 != k
    ensures k !in Keys(base)
  {
  }

  lemma SpreadFreshStep(base: Table, more: Table)
    requires more != [] && forall i :: 0 <= i < |base| ==> base[i].0 != more[0].0
    ensures Spread(base, more) == Spread(base + [more[0]], more[1..])
  {
    NotAKey(base, more[0].0);
    assert Put(base, more[0].0, more[0].1) == base + [more[0]];
  }

  lemma DisjointStep(base: Table, more: Table)
    requires more != [] && DistinctKeys(more) && Disjoint(base, more)
    ensures DistinctKeys(more[1..]) && Disjoint(base + [more[0]], more[1..])
  {
    assert forall j :: 0 <= j < |more| ==> Keys(more)[j] == more[j].0;
    assert forall j :: 0 <= j < |more| - 1 ==> Keys(more[1..])[j] == more[j + 1].0;
  }

  /** Spreading a table of new keys onto another appends its entries in order. */
  lemma {:induction false} SpreadFresh(base: Table, more: Table)
    requires DistinctKeys(more) && Disjoint(base, more)
    ensures Spread(base, more) == base + more
    decreases |more|
  {
    if more != [] {
      SpreadFreshStep(base, more);
      DisjointStep(base, more);
      SpreadFresh(base + [more[0]], more[1..]);
      AppendFirst(base, more);
    }
  }

  lemma AppendFirst<T>(a: seq<T>, b: seq<T>)
    requires b != []
    ensures a + [b[0]] + b[1..] == a + b
  {
    assert b == [b[0]] + b[1..];
  }

  /** The union of three tables with distinct keys and pairwise disjoint key
      sets holds their entries in table order, so `listRules` for any other
      system lists every key of the three tables in turn. */
  lemma UnionKeys(coc: Table, dnd: Table, common: Table)
    requires DistinctKeys(coc) && DistinctKeys(dnd) && DistinctKeys(common)
    requires Disjoint(coc, dnd) && Disjoint(coc + dnd, common)
    ensures Union(coc, dnd, common) == coc + dnd + common
    ensures Keys(Union(coc, dnd, common)) == Keys(coc) + Keys(dnd) + Keys(common)
  {
    SpreadFresh([], coc);
    assert [] + coc == coc;
    SpreadFresh(coc, dnd);
    SpreadFresh(coc + dnd, common);
    KeysAppend(coc, dnd);
    KeysAppend(coc + dnd, common);
  }

  /** Each listed key is found by `getRule` for the same system, exactly. */
  lemma ListedKeysFound(t: Table, i: nat)
    requires i < |t|
    ensures Search(t, ToLowerAscii(t[i].0)).Some?
  {
    assert ExactAt(t, ToLowerAscii(t[i].0), i);
    ExactBeatsFuzzy(t, ToLowerAscii(t[i].0), i);
  }
}
