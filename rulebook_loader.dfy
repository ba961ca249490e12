/** src/services/extension/rulebook-loader.ts: the YAML rulebooks of a
    plugin are stored into the shared rule map, one file after another.
    Reading and YAML parsing are foreign: each file arrives with what parsing
    produced, or `None` when reading or parsing threw. */
module RulebookLoader {
  import opened Wrappers
  import opened Text
  import opened OrderedMaps

  /** A rule system's manual, as YAML parsing gives it: a plain object from
      keyword to entry text. */
  type Manual = seq<(string, string)>

  /** The shared rule map, a JavaScript `Map` from rule name to manual. */
  type Rules = seq<(string, Manual)>

  /** The fields of a parsed rulebook that the loader reads. */
  datatype RuleData = RuleData(rule: Option<string>, manual: Option<Manual>)

  datatype RulebookFile = RulebookFile(name: string, parsed: Option<RuleData>)

  predicate IsYaml(name: string)
  {
    EndsWith(name, ".yaml") || EndsWith(name, ".yml")
  }

  /** `ruleData?.rule && ruleData.manual`: a non-empty rule name and a manual. */
  predicate Usable(f: RulebookFile)
  {
    f.parsed.Some? && f.parsed.value.rule.Some? && f.parsed.value.rule.value != []
    && f.parsed.value.manual.Some?
  }

  function YamlFiles(files: seq<RulebookFile>): (r: seq<RulebookFile>)
    ensures forall f :: f in r <==> f in files && IsYaml(f.name)
    ensures |r| <= |files|
  {
    if files == [] then []
    else (if IsYaml(files[0].name) then [files[0]] else []) + YamlFiles(files[1..])
  }

  /** The rule map after storing the given files in order. */
  function Stored(rules: Rules, files: seq<RulebookFile>): Rules
    decreases |files|
  {
    if files == [] then rules
    else
      Store(Stored(rules, files[..|files| - 1]), files[|files| - 1])
  }

  /** One file's effect on the map. */
  function Store(m: Rules, f: RulebookFile): Rules
  {
    if Usable(f) then Put(m, f.parsed.value.rule.value, f.parsed.value.manual.value) else m
  }

  lemma StoredStep(rules: Rules, fs: seq<RulebookFile>, i: nat)
    requires i < |fs|
    ensures Stored(rules, fs[..i + 1]) == Store(Stored(rules, fs[..i]), fs[i])
  {
    assert fs[..i + 1][..i] == fs[..i];
  }

  /** loadRulebooks: every usable YAML file stores its manual under its rule
      name; a file that fails is skipped and the loop goes on. */
  method LoadRulebooks(files: seq<RulebookFile>, rules: Rules)
    returns (result: Rules)
    ensures result == Stored(rules, YamlFiles(files))
  {
    var yamlFiles := YamlFiles(files);
    result := rules;
    for i := 0 to |yamlFiles|
      invariant result == Stored(rules, yamlFiles[..i])
    {
      var f := yamlFiles[i];
      StoredStep(rules, yamlFiles, i);
      if f.parsed.Some? {
        var ruleData := f.parsed.value;
        if ruleData.rule.Some? && ruleData.rule.value != [] && ruleData.manual.Some? {
          result := Put(result, ruleData.rule.value, ruleData.manual.value);
        }
      }
    }
    assert yamlFiles[..|yamlFiles|] == yamlFiles;
  }

  /** A file that cannot be used leaves the map as it was. */
  lemma SkipUnusable(rules: Rules, files: seq<RulebookFile>, f: RulebookFile)
    requires !Usable(f)
    ensures Stored(rules, files + [f]) == Stored(rules, files)
  {
    assert (files + [f])[..|files|] == files;
  }

  /** A stored manual replaces the earlier one whole: there is no merging of
      entries. */
  lemma LaterFileReplaces(rules: Rules, files: seq<RulebookFile>, f: RulebookFile)
    requires Usable(f)
    ensures Get(Stored(rules, files + [f]), f.parsed.value.rule.value) == Some(f.parsed.value.manual.value)
    ensures forall n :: n != f.parsed.value.rule.value ==>
      Get(Stored(rules, files + [f]), n) == Get(Stored(rules, files), n)
  {
    assert (files + [f])[..|files|] == files;
  }

  /** Storing only adds rule names: nothing already present disappears, and
      every new name comes from a usable file. */
  lemma {:induction false} StoredKeys(rules: Rules, files: seq<RulebookFile>)
    ensures forall n :: n in Keys(rules) ==> n in Keys(Stored(rules, files))
    ensures forall n :: n in Keys(Stored(rules, files)) && n !in Keys(rules) ==>
      exists i :: 0 <= i < |files| && Usable(files[i]) && files[i].parsed.value.rule.value == n
    decreases |files|
  {
    if files != [] {
      var init := files[..|files| - 1];
      var last := files[|files| - 1];
      StoredKeys(rules, init);
      StoreKeys(Stored(rules, init), last);
      forall n | n in Keys(Stored(rules, files)) && n !in Keys(rules)
        ensures exists i :: 0 <= i < |files| && Usable(files[i]) && files[i].parsed.value.rule.value == n
      {
        if n in Keys(Stored(rules, init)) {
          var i :| 0 <= i < |init| && Usable(init[i]) && init[i].parsed.value.rule.value == n;
          assert files[i] == init[i];
        } else {
          assert Usable(last) && last.parsed.value.rule.value == n;
        }
      }
    }
  }

  /** The names of the map after one file: a new rule name goes at the end. */
  lemma StoreKeys(m: Rules, f: RulebookFile)
    ensures Keys(Store(m, f)) == if Usable(f) && f.parsed.value.rule.value !in Keys(m)
      then Keys(m) + [f.parsed.value.rule.value] else Keys(m)
  {
    if Usable(f) {
      PutKeys(m, f.parsed.value.rule.value, f.parsed.value.manual.value);
    }
  }

  /** A `Map` keeps its insertion order: the names held before a load are
      listed first, in their old order, and the new ones follow. */
  lemma {:induction false} StoredKeepsOrder(rules: Rules, files: seq<RulebookFile>)
    ensures |Keys(rules)| <= |Keys(Stored(rules, files))|
    ensures Keys(Stored(rules, files))[..|Keys(rules)|] == Keys(rules)
    decreases |files|
  {
    if files != [] {
      var init := files[..|files| - 1];
      StoredKeepsOrder(rules, init);
      StoreKeys(Stored(rules, init), files[|files| - 1]);
      var before := Keys(Stored(rules, init));
      var last := files[|files| - 1];
      if Usable(last) {
        assert (before + [last.parsed.value.rule.value])[..|Keys(rules)|] == before[..|Keys(rules)|];
      }
    }
  }
}
