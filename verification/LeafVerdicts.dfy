/** The verdict of a single test, read from the sandbox's meta file and the checker's output. */
module LeafVerdicts {
  import opened Prelude
  import opened VerdictBuilders
  import opened TestTrees
  import opened EarlySkips

  const WRONG_ANSWER := VerdictType(WrongT, "WA")
  const PRESENTATION_ERROR := VerdictType(WrongT, "PE")
  const TIME_LIMIT_EXCEEDED := VerdictType(WrongT, "TL")
  const RUNTIME_ERROR := VerdictType(WrongT, "RE")
  const MEMORY_LIMIT_EXCEEDED := VerdictType(WrongT, "ML")
  const IDLE_LIMIT_EXCEEDED := VerdictType(WrongT, "IL")
  const SECURITY_VIOLATION := VerdictType(WrongT, "SV")

  /** One `key:value` line of the meta file, its number parsed. */
  datatype MetaLine = Status(text: string) | Time(seconds: real) | MaxRss(kilobytes: int) | Other

  datatype MetaInfo = MetaInfo(status: string, time: Option<real>, maxRss: Option<int>)

  /** value() on an optional that no line has set. */
  datatype MetaError = MissingValue

  /** The values of the last line of each kind; an absent or empty status is "OK". */
  function MetaOf(lines: seq<MetaLine>): MetaInfo {
    var m := RawMeta(lines);
    if m.status == "" then m.(status := "OK") else m
  }

  function RawMeta(lines: seq<MetaLine>): MetaInfo {
    if lines == [] then MetaInfo("", None, None)
    else
      var m := RawMeta(lines[..|lines| - 1]);
      match lines[|lines| - 1]
      case Status(s) => m.(status := s)
      case Time(t) => m.(time := Some(t))
      case MaxRss(k) => m.(maxRss := Some(k))
      case Other => m
  }

  method ParseMetaFile(lines: seq<MetaLine>) returns (m: MetaInfo)
    ensures m == MetaOf(lines)
  {
    m := MetaInfo("", None, None);
    for i := 0 to |lines|
      invariant m == RawMeta(lines[..i])
    {
      assert lines[..i + 1][..i] == lines[..i];
      match lines[i]
      case Status(s) => m := m.(status := s);
      case Time(t) => m := m.(time := Some(t));
      case MaxRss(k) => m := m.(maxRss := Some(k));
      case Other =>
    }
    assert lines[..|lines|] == lines;
    if m.status == "" {
      m := m.(status := "OK");
    }
  }

  /** Line `k` is the last of its kind. */
  predicate LastOfKind(lines: seq<MetaLine>, k: nat)
    requires k < |lines|
  {
    forall j :: k < j < |lines| ==>
      !(lines[j].Time? && lines[k].Time?) && !(lines[j].MaxRss? && lines[k].MaxRss?)
      && !(lines[j].Status? && lines[k].Status?)
  }

  lemma {:induction false} RawLastLine(lines: seq<MetaLine>, k: nat)
    requires k < |lines| && LastOfKind(lines, k)
    ensures var m := RawMeta(lines);
            && (lines[k].Time? ==> m.time == Some(lines[k].seconds))
            && (lines[k].MaxRss? ==> m.maxRss == Some(lines[k].kilobytes))
            && (lines[k].Status? ==> m.status == lines[k].text)
    decreases |lines|
  {
    var n := |lines| - 1;
    if k < n {
      RawLastLine(lines[..n], k);
      assert lines[..n][k] == lines[k];
    }
  }

  lemma {:induction false} RawAbsentLine(lines: seq<MetaLine>)
    ensures var m := RawMeta(lines);
            && (m.time.None? <==> forall k :: 0 <= k < |lines| ==> !lines[k].Time?)
            && (m.maxRss.None? <==> forall k :: 0 <= k < |lines| ==> !lines[k].MaxRss?)
            && ((forall k :: 0 <= k < |lines| ==> !lines[k].Status?) ==> m.status == "")
    decreases |lines|
  {
    if lines != [] {
      var front := lines[..|lines| - 1];
      RawAbsentLine(front);
      assert forall k :: 0 <= k < |front| ==> front[k] == lines[k];
    }
  }

  /** Each value is that of the last line of its kind; time and memory are absent exactly when there is no such line. */
  lemma {:induction false} LastLineCounts(lines: seq<MetaLine>)
    ensures var m := MetaOf(lines);
            && (forall k: nat :: k < |lines| && LastOfKind(lines, k) ==>
                  && (lines[k].Time? ==> m.time == Some(lines[k].seconds))
                  && (lines[k].MaxRss? ==> m.maxRss == Some(lines[k].kilobytes))
                  && (lines[k].Status? ==> m.status == if lines[k].text == "" then "OK" else lines[k].text))
            && (m.time.None? <==> forall k :: 0 <= k < |lines| ==> !lines[k].Time?)
            && (m.maxRss.None? <==> forall k :: 0 <= k < |lines| ==> !lines[k].MaxRss?)
            && ((forall k :: 0 <= k < |lines| ==> !lines[k].Status?) ==> m.status == "OK")
  {
    RawAbsentLine(lines);
    forall k: nat | k < |lines| && LastOfKind(lines, k)
      ensures lines[k].Time? ==> RawMeta(lines).time == Some(lines[k].seconds)
      ensures lines[k].MaxRss? ==> RawMeta(lines).maxRss == Some(lines[k].kilobytes)
      ensures lines[k].Status? ==> RawMeta(lines).status == lines[k].text
    {
      RawLastLine(lines, k);
    }
  }

  function FaultOf(status: string): VerdictType {
    if status == "TO" then TIME_LIMIT_EXCEEDED
    else if status == "RE" then RUNTIME_ERROR
    else if status == "SG" then MEMORY_LIMIT_EXCEEDED
    else if status == "IL" then IDLE_LIMIT_EXCEEDED
    else SECURITY_VIOLATION
  }

  function WithResources(meta: MetaInfo, kind: VerdictType, score: real): Result<Info, MetaError> {
    if meta.time == None || meta.maxRss == None then Err(MissingValue)
    else Ok(Info(kind, score, meta.time.value, meta.maxRss.value as real, 0.0))
  }

  function VerdictFromMeta(meta: MetaInfo): Result<Info, MetaError> {
    if meta.status == "OK" then WithResources(meta, ACCEPTED, 100.0)
    else WithResources(meta, FaultOf(meta.status), 0.0)
  }

  /** What one line of the checker says; an empty line reads as a NUL character. */
  function LineType(line: string): VerdictType {
    if line == "" then FAILED
    else if line[0] == 'o' then ACCEPTED
    else if line[0] == 'w' then WRONG_ANSWER
    else if line[0] == 'p' then PRESENTATION_ERROR
    else FAILED
  }

  /** The last line counts. `unset` is the class of the type variable when there is none: it is never initialized. */
  function CheckerType(lines: seq<string>, unset: Class): VerdictType {
    if lines == [] then VerdictType(unset, "") else LineType(lines[|lines| - 1])
  }

  method ReadCheckerOutput(lines: seq<string>, unset: Class) returns (kind: VerdictType)
    ensures kind == CheckerType(lines, unset)
  {
    kind := VerdictType(unset, "");
    for i := 0 to |lines|
      invariant kind == CheckerType(lines[..i], unset)
    {
      if lines[i] == "" {
        kind := FAILED;
      } else if lines[i][0] == 'o' {
        kind := ACCEPTED;
      } else if lines[i][0] == 'w' {
        kind := WRONG_ANSWER;
      } else if lines[i][0] == 'p' {
        kind := PRESENTATION_ERROR;
      } else {
        kind := FAILED;
      }
    }
    assert lines[..|lines|] == lines;
  }

  /** SingleTest::run after its scripts: `exitCode` is that of the sandboxed run. */
  method RunSingle(exitCode: int, metaLines: seq<MetaLine>, checkerLines: seq<string>, unset: Class)
    returns (r: Result<Info, MetaError>)
    ensures r == SingleVerdict(exitCode, MetaOf(metaLines), checkerLines, unset)
  {
    var meta := ParseMetaFile(metaLines);
    if exitCode != 0 || meta.status != "OK" {
      return VerdictFromMeta(meta);
    }
    var kind := ReadCheckerOutput(checkerLines, unset);
    r := WithResources(meta, kind, if kind.shortName == "AC" then 100.0 else 0.0);
  }

  function SingleVerdict(exitCode: int, meta: MetaInfo, checkerLines: seq<string>,
                         unset: Class): Result<Info, MetaError> {
    if exitCode != 0 || meta.status != "OK" then VerdictFromMeta(meta)
    else
      var kind := CheckerType(checkerLines, unset);
      WithResources(meta, kind, if kind.shortName == "AC" then 100.0 else 0.0)
  }

  /**
   * Every leaf verdict is coupled, full score and accepted or no score and wrong or failed, exactly unless a clean run
   * left an empty checker output and the uninitialized type happens to be something else.
   */
  lemma {:induction false} LeafIsCoupledIff(exitCode: int, metaLines: seq<MetaLine>, checkerLines: seq<string>,
                                            unset: Class)
    requires SingleVerdict(exitCode, MetaOf(metaLines), checkerLines, unset).Ok?
    ensures Coupled(SingleVerdict(exitCode, MetaOf(metaLines), checkerLines, unset).value) <==>
            || exitCode != 0 || MetaOf(metaLines).status != "OK" || checkerLines != []
            || unset == WrongT || unset == FailedT
  {
  }

  /** A run that fails without leaving a status in the meta file is accepted with full score, its output unchecked. */
  lemma {:induction false} FailedRunWithoutStatusIsAccepted(exitCode: int, seconds: real, kilobytes: int,
                                                            checkerLines: seq<string>, unset: Class)
    requires exitCode != 0
    ensures SingleVerdict(exitCode, MetaOf([Time(seconds), MaxRss(kilobytes)]), checkerLines, unset) ==
            Ok(Info(ACCEPTED, 100.0, seconds, kilobytes as real, 0.0))
  {
    var lines := [Time(seconds), MaxRss(kilobytes)];
    assert lines[..1] == [Time(seconds)];
    assert lines[..1][..0] == [];
    assert RawMeta(lines[..1]) == MetaInfo("", Some(seconds), None);
  }

  /**
   * Full score is given exactly for a failed run without a fault status and for a clean run whose last checker line
   * starts with o.
   */
  lemma {:induction false} FullScoreIff(exitCode: int, metaLines: seq<MetaLine>, checkerLines: seq<string>,
                                        unset: Class)
    requires SingleVerdict(exitCode, MetaOf(metaLines), checkerLines, unset).Ok?
    ensures SingleVerdict(exitCode, MetaOf(metaLines), checkerLines, unset).value.score == 100.0 <==>
            && MetaOf(metaLines).status == "OK"
            && (exitCode != 0 || (checkerLines != [] && checkerLines[|checkerLines| - 1] != ""
               && checkerLines[|checkerLines| - 1][0] == 'o'))
  {
  }

  // ----- Which verdict each answer gives -----

  /** A fault status gives a wrong verdict of its name, without score, with the time and memory of the run. */
  lemma {:induction false} FaultTable(exitCode: int, meta: MetaInfo, checkerLines: seq<string>, unset: Class)
    requires meta.status != "OK" && meta.time.Some? && meta.maxRss.Some?
    ensures var name := if meta.status == "TO" then "TL" else if meta.status == "RE" then "RE"
                        else if meta.status == "SG" then "ML" else if meta.status == "IL" then "IL" else "SV";
            SingleVerdict(exitCode, meta, checkerLines, unset) ==
            Ok(Info(VerdictType(WrongT, name), 0.0, meta.time.value, meta.maxRss.value as real, 0.0))
  {
  }

  /** After a clean run the first letter of the checker's last line decides the verdict. */
  lemma {:induction false} CheckerTable(meta: MetaInfo, checkerLines: seq<string>, unset: Class)
    requires meta.status == "OK" && meta.time.Some? && meta.maxRss.Some? && checkerLines != []
    ensures var last := checkerLines[|checkerLines| - 1];
            var r := SingleVerdict(0, meta, checkerLines, unset);
            && r.Ok? && r.value.time == meta.time.value && r.value.memory == meta.maxRss.value as real
            && r.value.realTime == 0.0
            && (last != "" && last[0] == 'o' ==> r.value.kind == VerdictType(AcceptedT, "AC") && r.value.score == 100.0)
            && (last != "" && last[0] == 'w' ==> r.value.kind == VerdictType(WrongT, "WA") && r.value.score == 0.0)
            && (last != "" && last[0] == 'p' ==> r.value.kind == VerdictType(WrongT, "PE") && r.value.score == 0.0)
            && (last == "" || last[0] !in {'o', 'w', 'p'} ==>
                  r.value.kind == VerdictType(FailedT, "FAIL") && r.value.score == 0.0)
  {
    assert |FAILED.shortName| == 4;
    assert WRONG_ANSWER.shortName[0] == 'W' && PRESENTATION_ERROR.shortName[0] == 'P' && ACCEPTED.shortName[0] == 'A';
  }

  /** A failed run is judged by the meta file alone. */
  lemma {:induction false} FailedRunIgnoresChecker(exitCode: int, meta: MetaInfo, checkerLines: seq<string>,
                                                   unset: Class)
    requires exitCode != 0 && meta.status == "OK" && meta.time.Some? && meta.maxRss.Some?
    ensures SingleVerdict(exitCode, meta, checkerLines, unset) ==
            Ok(Info(VerdictType(AcceptedT, "AC"), 100.0, meta.time.value, meta.maxRss.value as real, 0.0))
  {
  }

  /** Without a time or a memory line there is no verdict: reading the missing value throws. */
  lemma {:induction false} MissingValueIff(exitCode: int, meta: MetaInfo, checkerLines: seq<string>, unset: Class)
    ensures SingleVerdict(exitCode, meta, checkerLines, unset) == Err(MissingValue) <==>
            meta.time.None? || meta.maxRss.None?
  {
  }
}
