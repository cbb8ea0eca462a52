/**
 * The `.idx` inventory matcher: each inventory line is
 * `line_num:byte_offset:date_info:VAR_ABBREV:LEVEL_INFO:forecast_info`;
 * a line whose `VAR_ABBREV:LEVEL_INFO` is one of a name's search terms is
 * recorded for that name, the first such line winning.
 */
module IdxMatcher {

  /** Python's `s.split(sep)` for a one-character separator. */
  function Split(s: string, sep: char): (parts: seq<string>)
    ensures |parts| >= 1
    ensures forall k :: 0 <= k < |parts| ==> sep !in parts[k]
    decreases |s|
  {
    if s == [] then [""]
    else if s[0] == sep then [""] + Split(s[1..], sep)
    else
      var rest := Split(s[1..], sep);
      [[s[0]] + rest[0]] + rest[1..]
  }

  /** `sep.join(parts)`. */
  function JoinWith(parts: seq<string>, sep: char): string
    decreases |parts|
  {
    if parts == [] then ""
    else if |parts| == 1 then parts[0]
    else parts[0] + [sep] + JoinWith(parts[1..], sep)
  }

  /** Number of occurrences of `c` in `s`. */
  function Count(s: string, c: char): nat
    decreases |s|
  {
    if s == [] then 0 else (if s[0] == c then 1 else 0) + Count(s[1..], c)
  }

  /** Splitting loses nothing: joining the parts gives the line back. */
  lemma {:induction false} SplitJoin(s: string, sep: char)
    ensures JoinWith(Split(s, sep), sep) == s
    decreases |s|
  {
    if s != [] {
      SplitJoin(s[1..], sep);
      var rest := Split(s[1..], sep);
      if s[0] == sep {
        assert ([""] + rest)[1..] == rest;
      } else {
        var parts := [[s[0]] + rest[0]] + rest[1..];
        if |rest| == 1 {
          assert JoinWith(rest, sep) == rest[0];
        } else {
          assert JoinWith(rest, sep) == rest[0] + [sep] + JoinWith(rest[1..], sep);
          assert parts[1..] == rest[1..];
        }
      }
    }
  }

  /** There is one more part than there are separators. */
  lemma {:induction false} SplitCount(s: string, sep: char)
    ensures |Split(s, sep)| == Count(s, sep) + 1
    decreases |s|
  {
    if s != [] {
      SplitCount(s[1..], sep);
    }
  }

  /** What the matcher keeps of a matching line. */
  datatype IdxInfo = IdxInfo(idxLineNum: string, varAbbrevIdx: string, levelInfoIdx: string, fullIdxLine: string)

  /** The line has the fields the matcher reads: more than four parts. */
  predicate HasFields(line: string) {
    |Split(line, ':')| > 4
  }

  /** `f"{var_abbrev}:{level_info}"`. */
  function DescriptionKey(line: string): string
    requires HasFields(line)
  {
    var parts := Split(line, ':');
    parts[3] + ":" + parts[4]
  }

  function Info(line: string): IdxInfo
    requires HasFields(line)
  {
    var parts := Split(line, ':');
    IdxInfo(parts[0], parts[3], parts[4], line)
  }

  /** The line is a match for a name with these search terms. */
  predicate LineMatches(line: string, terms: seq<string>) {
    HasFields(line) && DescriptionKey(line) in terms
  }

  /**
   * `found` after visiting the names in `names`: each visited name that has
   * no entry yet and whose terms hold `key` gets `info`.
   */
  function Upd(found: map<string, IdxInfo>, searchTerms: map<string, seq<string>>, names: set<string>, key: string, info: IdxInfo): map<string, IdxInfo> {
    map n | n in found.Keys + (set m | m in names && m in searchTerms && key in searchTerms[m]) ::
      if n in found then found[n] else info
  }

  lemma UpdNone(found: map<string, IdxInfo>, searchTerms: map<string, seq<string>>, key: string, info: IdxInfo)
    ensures Upd(found, searchTerms, {}, key, info) == found
  {
  }

  /** Visiting one more name records it when it matches and has no entry yet. */
  lemma UpdStep(found: map<string, IdxInfo>, searchTerms: map<string, seq<string>>, names: set<string>, name: string, key: string, info: IdxInfo)
    requires name in searchTerms
    ensures var u := Upd(found, searchTerms, names, key, info);
      Upd(found, searchTerms, names + {name}, key, info) ==
        if key in searchTerms[name] && name !in u then u[name := info] else u
  {
  }

  /** One iteration of the outer loop. */
  function StepLine(found: map<string, IdxInfo>, searchTerms: map<string, seq<string>>, line: string): map<string, IdxInfo> {
    if !HasFields(line) then found
    else Upd(found, searchTerms, searchTerms.Keys, DescriptionKey(line), Info(line))
  }

  /** Reference definition: the lines visited in order, starting from an empty result. */
  function MatchLines(lines: seq<string>, searchTerms: map<string, seq<string>>): map<string, IdxInfo>
    decreases |lines|
  {
    if lines == [] then map[]
    else StepLine(MatchLines(lines[..|lines| - 1], searchTerms), searchTerms, lines[|lines| - 1])
  }

  /** The matching loop over the lines of the inventory. */
  method FindVarsInfo(idxContent: seq<string>, searchTerms: map<string, seq<string>>) returns (foundVarsInfo: map<string, IdxInfo>)
    ensures foundVarsInfo == MatchLines(idxContent, searchTerms)
  {
    foundVarsInfo := map[];
    for lineIdx := 0 to |idxContent|
      invariant foundVarsInfo == MatchLines(idxContent[..lineIdx], searchTerms)
    {
      var lineContent := idxContent[lineIdx];
      assert idxContent[..lineIdx + 1][..lineIdx] == idxContent[..lineIdx];
      foundVarsInfo := MatchLine(foundVarsInfo, searchTerms, lineContent);
    }
    assert idxContent[..|idxContent|] == idxContent;
  }

  /** The body of the outer loop: the line against every name's search terms. */
  method MatchLine(found: map<string, IdxInfo>, searchTerms: map<string, seq<string>>, lineContent: string)
    returns (foundVarsInfo: map<string, IdxInfo>)
    ensures foundVarsInfo == StepLine(found, searchTerms, lineContent)
  {
    foundVarsInfo := found;
    var parts := Split(lineContent, ':');
    if |parts| > 4 {
      var varAbbrev := parts[3];
      var levelInfo := parts[4];
      var descriptionKey := varAbbrev + ":" + levelInfo;
      var info := IdxInfo(parts[0], varAbbrev, levelInfo, lineContent);
      assert descriptionKey == DescriptionKey(lineContent) && info == Info(lineContent);
      foundVarsInfo := MatchNames(found, searchTerms, descriptionKey, info);
    }
  }

  /** The inner loop: every name whose terms hold `key` and that has no entry yet gets `info`. */
  method MatchNames(found: map<string, IdxInfo>, searchTerms: map<string, seq<string>>, descriptionKey: string, info: IdxInfo)
    returns (foundVarsInfo: map<string, IdxInfo>)
    ensures foundVarsInfo == Upd(found, searchTerms, searchTerms.Keys, descriptionKey, info)
  {
    foundVarsInfo := found;
    UpdNone(found, searchTerms, descriptionKey, info);
    var remaining := searchTerms.Keys;
    while remaining != {}
      invariant remaining <= searchTerms.Keys
      invariant foundVarsInfo == Upd(found, searchTerms, searchTerms.Keys - remaining, descriptionKey, info)
      decreases |remaining|
    {
      var humanName :| humanName in remaining;
      var termsToMatch := searchTerms[humanName];
      ghost var visited := searchTerms.Keys - remaining;
      UpdStep(found, searchTerms, visited, humanName, descriptionKey, info);
      if descriptionKey in termsToMatch {
        if humanName !in foundVarsInfo {
          foundVarsInfo := foundVarsInfo[humanName := info];
        }
      }
      remaining := remaining - {humanName};
      assert searchTerms.Keys - remaining == visited + {humanName};
    }
    assert searchTerms.Keys - remaining == searchTerms.Keys;
  }

  /** Only names that have search terms are ever recorded. */
  lemma {:induction false} MatchKeysSubset(lines: seq<string>, searchTerms: map<string, seq<string>>)
    ensures MatchLines(lines, searchTerms).Keys <= searchTerms.Keys
    decreases |lines|
  {
    if lines != [] {
      MatchKeysSubset(lines[..|lines| - 1], searchTerms);
    }
  }

  /** A line with four or fewer fields changes nothing. */
  lemma ShortLineIgnored(found: map<string, IdxInfo>, searchTerms: map<string, seq<string>>, line: string)
    requires Count(line, ':') <= 3
    ensures StepLine(found, searchTerms, line) == found
  {
    SplitCount(line, ':');
  }

  /** An entry, once recorded, is never overwritten by a later line. */
  lemma NeverOverwritten(found: map<string, IdxInfo>, searchTerms: map<string, seq<string>>, line: string, name: string)
    requires name in found
    ensures name in StepLine(found, searchTerms, line) && StepLine(found, searchTerms, line)[name] == found[name]
  {
  }

  /** `k` is the first line that matches `terms`. */
  predicate FirstMatch(lines: seq<string>, terms: seq<string>, k: int) {
    0 <= k < |lines| && LineMatches(lines[k], terms) &&
    forall j :: 0 <= j < k ==> !LineMatches(lines[j], terms)
  }

  /**
   * A name is recorded exactly when some line matches its terms, and then
   * with the information of the first such line.
   */
  lemma {:induction false} FirstMatchWins(lines: seq<string>, searchTerms: map<string, seq<string>>, name: string)
    requires name in searchTerms
    ensures name in MatchLines(lines, searchTerms) <==>
      exists k :: 0 <= k < |lines| && LineMatches(lines[k], searchTerms[name])
    ensures name in MatchLines(lines, searchTerms) ==>
      exists k :: FirstMatch(lines, searchTerms[name], k) && MatchLines(lines, searchTerms)[name] == Info(lines[k])
    decreases |lines|
  {
    if lines != [] {
      var init := lines[..|lines| - 1];
      var last := lines[|lines| - 1];
      var terms := searchTerms[name];
      FirstMatchWins(init, searchTerms, name);
      var r := MatchLines(init, searchTerms);
      if name in r {
        var k :| FirstMatch(init, terms, k) && r[name] == Info(init[k]);
        assert lines[k] == init[k];
        assert forall j :: 0 <= j < k ==> lines[j] == init[j];
        assert FirstMatch(lines, terms, k);
      } else {
        assert forall j :: 0 <= j < |init| ==> lines[j] == init[j];
        if LineMatches(last, terms) {
          assert FirstMatch(lines, terms, |lines| - 1);
        }
      }
    }
  }
}
