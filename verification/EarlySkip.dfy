/** What skipping the rest of a testset, once its score cannot change, does to the verdict. */
module EarlySkips {
  import opened Prelude
  import opened VerdictBuilders
  import opened TestTrees

  // ----- One testset: `rs` are the verdicts of running its children, `ks` those of skipping them -----

  /** The children's verdicts are added from `current` on, whatever the score. */
  function FoldFrom(b: Builder, current: Info, rs: seq<Info>): Info
    decreases |rs|
  {
    if rs == [] then current else FoldFrom(b, Add(b, current, rs[0]), rs[1..])
  }

  function EarlyFrom(b: Builder, current: Info, rs: seq<Info>, ks: seq<Info>): Info
    requires |rs| == |ks|
    decreases |rs|
  {
    if rs == [] then current
    else EarlyFrom(b, Add(b, current, if CanChange(current) then rs[0] else ks[0]), rs[1..], ks[1..])
  }

  lemma {:induction false} FoldFromSnoc(b: Builder, current: Info, rs: seq<Info>, v: Info)
    ensures FoldFrom(b, current, rs + [v]) == Add(b, FoldFrom(b, current, rs), v)
    decreases |rs|
  {
    if rs == [] {
      assert [v][1..] == [];
    } else {
      assert (rs + [v])[1..] == rs[1..] + [v];
      FoldFromSnoc(b, Add(b, current, rs[0]), rs[1..], v);
    }
  }

  lemma {:induction false} FoldIsFoldFrom(b: Builder, rs: seq<Info>)
    ensures Fold(b, rs) == FoldFrom(b, Start(b), rs)
  {
    if rs != [] {
      var front, last := rs[..|rs| - 1], rs[|rs| - 1];
      FoldIsFoldFrom(b, front);
      FoldFromSnoc(b, Start(b), front, last);
      assert rs == front + [last];
    }
  }

  ghost predicate AllNonNegative(vs: seq<Info>) {
    forall k :: 0 <= k < |vs| ==> vs[k].score >= 0.0
  }

  ghost predicate AllMild(vs: seq<Info>) {
    forall k :: 0 <= k < |vs| ==> Mild(vs[k])
  }

  lemma {:induction false} EarlyScoreFrom(current: Info, rs: seq<Info>, ks: seq<Info>)
    requires |rs| == |ks| && current.score >= 0.0 && AllNonNegative(rs) && AllNonNegative(ks)
    ensures EarlyFrom(Min, current, rs, ks).score == FoldFrom(Min, current, rs).score
    decreases |rs|
  {
    if rs != [] {
      if CanChange(current) {
        EarlyScoreFrom(Add(Min, current, rs[0]), rs[1..], ks[1..]);
      } else {
        ZeroStays(Add(Min, current, ks[0]), rs[1..], ks[1..]);
        ZeroStays(Add(Min, current, rs[0]), rs[1..], ks[1..]);
      }
    }
  }

  lemma {:induction false} ZeroStays(current: Info, rs: seq<Info>, ks: seq<Info>)
    requires |rs| == |ks| && current.score == 0.0 && AllNonNegative(rs) && AllNonNegative(ks)
    ensures EarlyFrom(Min, current, rs, ks).score == 0.0 && FoldFrom(Min, current, rs).score == 0.0
    decreases |rs|
  {
    if rs != [] {
      ZeroStays(Add(Min, current, ks[0]), rs[1..], ks[1..]);
      ZeroStays(Add(Min, current, rs[0]), rs[1..], ks[1..]);
    }
  }

  lemma {:induction false} EarlyKeepsScore(rs: seq<Info>, ks: seq<Info>)
    requires |rs| == |ks| && AllNonNegative(rs) && AllNonNegative(ks)
    ensures EarlyFrom(Min, Start(Min), rs, ks).score == Fold(Min, rs).score
  {
    EarlyScoreFrom(Start(Min), rs, ks);
    FoldIsFoldFrom(Min, rs);
  }

  /** Before the first zero score nothing is skipped. */
  lemma {:induction false} UntilFirstZero(current: Info, rs: seq<Info>, ks: seq<Info>, z: nat)
    requires |rs| == |ks| && z < |rs| && current.score > 0.0 && AllNonNegative(rs)
    requires rs[z].score == 0.0 && forall k :: 0 <= k < z ==> rs[k].score > 0.0
    ensures var hit := FoldFrom(Min, current, rs[..z + 1]);
            && hit.score == 0.0
            && EarlyFrom(Min, current, rs, ks) == EarlyFrom(Min, hit, rs[z + 1..], ks[z + 1..])
            && FoldFrom(Min, current, rs) == FoldFrom(Min, hit, rs[z + 1..])
    decreases z
  {
    var next := Add(Min, current, rs[0]);
    assert rs[..z + 1][0] == rs[0];
    if z == 0 {
      assert rs[..1][1..] == [];
      assert FoldFrom(Min, current, rs[..1]) == next;
    } else {
      assert rs[..z + 1][1..] == rs[1..][..z];
      assert rs[1..][z..] == rs[z + 1..] && ks[1..][z..] == ks[z + 1..];
      UntilFirstZero(next, rs[1..], ks[1..], z - 1);
    }
  }

  lemma {:induction false} SkippedKindStays(current: Info, rs: seq<Info>, ks: seq<Info>)
    requires |rs| == |ks| && current.score == 0.0 && AllMild(ks)
    requires current.kind.cls == WrongT || current.kind.cls == FailedT
    ensures EarlyFrom(Min, current, rs, ks).kind == current.kind
    decreases |rs|
  {
    if rs != [] {
      SkippedKindStays(Add(Min, current, ks[0]), rs[1..], ks[1..]);
    }
  }

  lemma {:induction false} RunOnKind(current: Info, rs: seq<Info>)
    requires current.kind.cls == WrongT || current.kind.cls == FailedT
    ensures var r := FoldFrom(Min, current, rs);
            && (current.kind.cls == FailedT || !SomeClass(rs, FailedT) ==> r.kind == current.kind)
            && (current.kind.cls == WrongT && SomeClass(rs, FailedT) ==> r.kind.cls == FailedT)
    decreases |rs|
  {
    if rs != [] {
      var rest := rs[1..];
      RunOnKind(Add(Min, current, rs[0]), rest);
      if SomeClass(rest, FailedT) {
        var k :| 0 <= k < |rest| && rest[k].kind.cls == FailedT;
        assert rs[k + 1].kind.cls == FailedT;
      }
      if SomeClass(rs, FailedT) && rs[0].kind.cls != FailedT {
        var k :| 0 <= k < |rs| && rs[k].kind.cls == FailedT;
        assert rest[k - 1].kind.cls == FailedT;
      }
    }
  }

  /** A Min fold that includes a wrong or failed child is wrong or failed. */
  lemma {:induction false} FaultInFold(rs: seq<Info>, k: nat)
    requires k < |rs| && (rs[k].kind.cls == WrongT || rs[k].kind.cls == FailedT)
    ensures FoldFrom(Min, Start(Min), rs).kind.cls == WrongT || FoldFrom(Min, Start(Min), rs).kind.cls == FailedT
  {
    FoldIsFoldFrom(Min, rs);
    MinClass(rs);
  }

  lemma {:induction false} EarlyKeepsTypeIff(rs: seq<Info>, ks: seq<Info>, z: nat)
    requires |rs| == |ks| && AllNonNegative(rs) && AllMild(ks)
    requires z < |rs| && rs[z].score == 0.0 && forall k :: 0 <= k < z ==> rs[k].score > 0.0
    requires rs[z].kind.cls == WrongT || rs[z].kind.cls == FailedT
    ensures EarlyFrom(Min, Start(Min), rs, ks).kind == Fold(Min, rs).kind <==>
            SomeClass(rs[..z + 1], FailedT) || !SomeClass(rs[z + 1..], FailedT)
  {
    FoldIsFoldFrom(Min, rs);
    UntilFirstZero(Start(Min), rs, ks, z);
    var hit := FoldFrom(Min, Start(Min), rs[..z + 1]);
    assert rs[..z + 1][z] == rs[z];
    FaultInFold(rs[..z + 1], z);
    FoldIsFoldFrom(Min, rs[..z + 1]);
    MinClass(rs[..z + 1]);
    SkippedKindStays(hit, rs[z + 1..], ks[z + 1..]);
    RunOnKind(hit, rs[z + 1..]);
  }

  // ----- The run of a testset -----

  /** None of the children throws with this many boxes. */
  predicate AllRun(ts: seq<Test>, boxes: nat) {
    forall c :: c in ts ==> Run(c, boxes).Ok?
  }

  /** What each child would report if it were run. */
  function Runs(ts: seq<Test>, boxes: nat): seq<Info>
    requires AllRun(ts, boxes)
  {
    seq(|ts|, k requires 0 <= k < |ts| => Run(ts[k], boxes).value)
  }

  function Skips(ts: seq<Test>): seq<Info> {
    seq(|ts|, k requires 0 <= k < |ts| => Skip(ts[k]))
  }

  /** Testset::run computes the early-skipping fold of its children. */
  lemma {:induction false} RunIsEarly(b: Builder, current: Info, ts: seq<Test>, boxes: nat)
    requires AllRun(ts, boxes)
    ensures RunFrom(b, current, ts, boxes) == Ok(EarlyFrom(b, current, Runs(ts, boxes), Skips(ts)))
    decreases |ts|
  {
    if ts != [] {
      var v := if CanChange(current) then Run(ts[0], boxes).value else Skip(ts[0]);
      assert Runs(ts, boxes)[1..] == Runs(ts[1..], boxes) && Skips(ts)[1..] == Skips(ts[1..]);
      RunIsEarly(b, Add(b, current, v), ts[1..], boxes);
    }
  }

  lemma {:induction false} SkipNonNegative(t: Test)
    ensures Skip(t).score >= 0.0
    decreases t
  {
    match t
    case Single(_) =>
    case Testset(b, ts) => SkipFromNonNegative(b, Start(b), ts);
    case Compilation(_, c) => SkipNonNegative(c);
    case SyncResult(c) => SkipNonNegative(c);
  }

  lemma {:induction false} SkipFromNonNegative(b: Builder, current: Info, ts: seq<Test>)
    requires current.score >= 0.0
    ensures SkipFrom(b, current, ts).score >= 0.0
    decreases ts
  {
    if ts != [] {
      SkipNonNegative(ts[0]);
      SkipFromNonNegative(b, Add(b, current, Skip(ts[0])), ts[1..]);
    }
  }

  lemma {:induction false} SkipsAreMild(ts: seq<Test>)
    ensures AllMild(Skips(ts)) && AllNonNegative(Skips(ts))
  {
    forall k | 0 <= k < |ts| ensures Mild(Skip(ts[k])) && Skip(ts[k]).score >= 0.0 {
      SkipMild(ts[k]);
      SkipNonNegative(ts[k]);
    }
  }

  /** Early skipping never changes the score of a Min testset. */
  lemma {:induction false} EarlySkipKeepsScore(ts: seq<Test>, boxes: nat)
    requires boxes >= BoxesRequired(Testset(Min, ts)) && AllRun(ts, boxes) && AllNonNegative(Runs(ts, boxes))
    ensures Run(Testset(Min, ts), boxes).Ok?
    ensures Run(Testset(Min, ts), boxes).value.score == Fold(Min, Runs(ts, boxes)).score
  {
    RunIsEarly(Min, Start(Min), ts, boxes);
    SkipsAreMild(ts);
    EarlyKeepsScore(Runs(ts, boxes), Skips(ts));
  }

  /**
   * When the first child that brings the score of a Min testset to zero is wrong or failed, its run gives the verdict
   * type of running every child exactly when a child up to there failed or none after it does.
   */
  lemma {:induction false} EarlySkipKeepsTypeIff(ts: seq<Test>, boxes: nat, z: nat)
    requires boxes >= BoxesRequired(Testset(Min, ts)) && AllRun(ts, boxes) && AllNonNegative(Runs(ts, boxes))
    requires z < |ts| && Runs(ts, boxes)[z].score == 0.0
    requires forall k :: 0 <= k < z ==> Runs(ts, boxes)[k].score > 0.0
    requires Runs(ts, boxes)[z].kind.cls == WrongT || Runs(ts, boxes)[z].kind.cls == FailedT
    ensures Run(Testset(Min, ts), boxes).Ok?
    ensures Run(Testset(Min, ts), boxes).value.kind == Fold(Min, Runs(ts, boxes)).kind <==>
            SomeClass(Runs(ts, boxes)[..z + 1], FailedT) || !SomeClass(Runs(ts, boxes)[z + 1..], FailedT)
  {
    RunIsEarly(Min, Start(Min), ts, boxes);
    SkipsAreMild(ts);
    EarlyKeepsTypeIff(Runs(ts, boxes), Skips(ts), z);
  }

  lemma {:induction false} FoldFromAppend(b: Builder, current: Info, xs: seq<Info>, ys: seq<Info>)
    ensures FoldFrom(b, current, xs + ys) == FoldFrom(b, FoldFrom(b, current, xs), ys)
    decreases |xs|
  {
    if xs == [] {
      assert xs + ys == ys;
    } else {
      assert (xs + ys)[1..] == xs[1..] + ys;
      FoldFromAppend(b, Add(b, current, xs[0]), xs[1..], ys);
    }
  }

  lemma {:induction false} ZeroSkipsRest(current: Info, rs: seq<Info>, ks: seq<Info>)
    requires |rs| == |ks| && current.score == 0.0 && AllNonNegative(ks)
    ensures EarlyFrom(Min, current, rs, ks) == FoldFrom(Min, current, ks)
    decreases |rs|
  {
    if rs != [] {
      ZeroSkipsRest(Add(Min, current, ks[0]), rs[1..], ks[1..]);
    }
  }

  lemma {:induction false} PositiveSkipsNone(b: Builder, current: Info, rs: seq<Info>, ks: seq<Info>)
    requires |rs| == |ks| && current.score > 0.0
    requires forall k :: 0 <= k < |rs| ==> if b == Min then rs[k].score > 0.0 else rs[k].score >= 0.0
    ensures EarlyFrom(b, current, rs, ks) == FoldFrom(b, current, rs)
    decreases |rs|
  {
    if rs != [] {
      PositiveSkipsNone(b, Add(b, current, rs[0]), rs[1..], ks[1..]);
    }
  }

  /** As long as every child scores, a Min testset runs them all and skips nothing. */
  lemma {:induction false} AllScoringRunsAll(ts: seq<Test>, boxes: nat)
    requires boxes >= BoxesRequired(Testset(Min, ts)) && AllRun(ts, boxes)
    requires forall k :: 0 <= k < |ts| ==> Runs(ts, boxes)[k].score > 0.0
    ensures Run(Testset(Min, ts), boxes) == Ok(Fold(Min, Runs(ts, boxes)))
  {
    RunIsEarly(Min, Start(Min), ts, boxes);
    PositiveSkipsNone(Min, Start(Min), Runs(ts, boxes), Skips(ts));
    FoldIsFoldFrom(Min, Runs(ts, boxes));
  }

  /** The child at `z` is the first whose run scores zero. */
  ghost predicate FirstZero(ts: seq<Test>, boxes: nat, z: nat)
    requires AllRun(ts, boxes)
  {
    && z < |ts| && Runs(ts, boxes)[z].score == 0.0
    && forall k :: 0 <= k < z ==> Runs(ts, boxes)[k].score > 0.0
  }

  /** Otherwise its verdict is that of the children run up to the first zero and the rest skipped. */
  lemma {:induction false} SkipsAfterFirstZero(ts: seq<Test>, boxes: nat, z: nat)
    requires boxes >= BoxesRequired(Testset(Min, ts)) && AllRun(ts, boxes) && AllNonNegative(Runs(ts, boxes))
    requires FirstZero(ts, boxes, z)
    ensures Run(Testset(Min, ts), boxes) == Ok(Fold(Min, Runs(ts, boxes)[..z + 1] + Skips(ts)[z + 1..]))
  {
    var rs, ks := Runs(ts, boxes), Skips(ts);
    RunIsEarly(Min, Start(Min), ts, boxes);
    SkipsAreMild(ts);
    UntilFirstZero(Start(Min), rs, ks, z);
    var hit := FoldFrom(Min, Start(Min), rs[..z + 1]);
    ZeroSkipsRest(hit, rs[z + 1..], ks[z + 1..]);
    FoldFromAppend(Min, Start(Min), rs[..z + 1], ks[z + 1..]);
    FoldIsFoldFrom(Min, rs[..z + 1] + ks[z + 1..]);
  }

  /** The class of the last verdict that is not accepted. */
  function LastClass(vs: seq<Info>): Class {
    if vs == [] then AcceptedT
    else if vs[|vs| - 1].kind.cls == AcceptedT then LastClass(vs[..|vs| - 1])
    else vs[|vs| - 1].kind.cls
  }

  /** The class of a Min fold in closed form. */
  lemma {:induction false} MinClosed(vs: seq<Info>)
    ensures Fold(Min, vs).kind.cls ==
            if SomeClass(vs, FailedT) then FailedT else if SomeClass(vs, WrongT) then WrongT else LastClass(vs)
    decreases |vs|
  {
    if vs != [] {
      MinClosed(vs[..|vs| - 1]);
      LastClassIsMild(vs[..|vs| - 1]);
      SomeClassSnoc(vs, FailedT);
      SomeClassSnoc(vs, WrongT);
    }
  }

  lemma {:induction false} SomeClassAppend(xs: seq<Info>, ys: seq<Info>, c: Class)
    ensures SomeClass(xs + ys, c) <==> SomeClass(xs, c) || SomeClass(ys, c)
  {
    var zs := xs + ys;
    if k :| 0 <= k < |xs| && xs[k].kind.cls == c {
      assert zs[k].kind.cls == c;
    }
    if k :| 0 <= k < |ys| && ys[k].kind.cls == c {
      assert zs[|xs| + k].kind.cls == c;
    }
  }

  /**
   * For every Min testset with a child that scores zero: its run gives the verdict class of running every child
   * exactly when a child up to the first zero failed; or none at all fails and one up to there is wrong; or none at
   * all is wrong either and the last child that is not accepted has the same class with the rest skipped as with the
   * rest run.
   */
  lemma {:induction false} EarlySkipKeepsClassIff(ts: seq<Test>, boxes: nat, z: nat)
    requires boxes >= BoxesRequired(Testset(Min, ts)) && AllRun(ts, boxes) && AllNonNegative(Runs(ts, boxes))
    requires FirstZero(ts, boxes, z)
    ensures Run(Testset(Min, ts), boxes).Ok?
    ensures var rs := Runs(ts, boxes);
            var upTo, rest := rs[..z + 1], rs[z + 1..];
            Run(Testset(Min, ts), boxes).value.kind.cls == Fold(Min, rs).kind.cls <==>
            || SomeClass(upTo, FailedT)
            || (!SomeClass(rest, FailedT) && SomeClass(upTo, WrongT))
            || (!SomeClass(rest, FailedT) && !SomeClass(rest, WrongT)
               && LastClass(upTo + Skips(ts)[z + 1..]) == LastClass(rs))
  {
    var rs, ks := Runs(ts, boxes), Skips(ts);
    var upTo, rest, skipped := rs[..z + 1], rs[z + 1..], ks[z + 1..];
    SkipsAfterFirstZero(ts, boxes, z);
    SkipsAreMild(ts);
    assert rs == upTo + rest;
    MinClosed(rs);
    MinClosed(upTo + skipped);
    SomeClassAppend(upTo, rest, FailedT);
    SomeClassAppend(upTo, rest, WrongT);
    SomeClassAppend(upTo, skipped, FailedT);
    SomeClassAppend(upTo, skipped, WrongT);
    assert !SomeClass(skipped, FailedT) && !SomeClass(skipped, WrongT);
    LastClassIsMild(upTo + skipped);
    LastClassIsMild(rs);
  }

  /** The last class is that of some verdict, unless all are accepted. */
  lemma {:induction false} LastClassIsMild(vs: seq<Info>)
    ensures SomeClass(vs, LastClass(vs)) || LastClass(vs) == AcceptedT
    decreases |vs|
  {
    if vs != [] {
      LastClassIsMild(vs[..|vs| - 1]);
      SomeClassSnoc(vs, LastClass(vs));
    }
  }

  /** A skipped failure: running every child would have failed the testset, its run reports a wrong answer. */
  lemma {:induction false} SkippedFailureIsMasked(wrong: Info, failed: Info)
    requires wrong.score == 0.0 && wrong.kind.cls == WrongT && failed.score == 0.0 && failed.kind.cls == FailedT
    ensures var ts := [Single(wrong), Single(failed)];
            && AllRun(ts, 2) && Fold(Min, Runs(ts, 2)).kind == failed.kind
            && Run(Testset(Min, ts), 2).Ok? && Run(Testset(Min, ts), 2).value.kind == wrong.kind
  {
    var ts := [Single(wrong), Single(failed)];
    var rs := Runs(ts, 2);
    BoxesAreForLeaves(Testset(Min, ts));
    assert rs == [wrong, failed];
    MinKeepsFirstFault(rs, 1);
    assert rs[..1] == [wrong];
    MinKeepsFirstFault(rs[..1], 0);
    EarlySkipKeepsTypeIff(ts, 2, 0);
    RunIsEarly(Min, Start(Min), ts, 2);
    SkipsAreMild(ts);
    UntilFirstZero(Start(Min), rs, Skips(ts), 0);
    FoldIsFoldFrom(Min, rs[..1]);
    SkippedKindStays(FoldFrom(Min, Start(Min), rs[..1]), rs[1..], Skips(ts)[1..]);
  }

  // ----- Whole trees -----

  /** The reference: every child of every testset is run, and no box is ever missing. */
  function RunAll(t: Test): Result<Info, Error>
    decreases t
  {
    match t
    case Single(outcome) => Ok(outcome)
    case Testset(b, ts) => RunAllFrom(b, Start(b), ts)
    case Compilation(compile, c) =>
      if compile == SubmissionMissing then Err(SubmissionNotFound)
      else if compile == PrepareFails || compile == CheckerCopyFails then Ok(Zeroed(FAILED))
      else if compile == CompileFails then Ok(Zeroed(COMPILATION_ERROR))
      else
        var r := RunAll(c);
        if r.Ok? && compile == CleanupFails then Ok(Zeroed(FAILED)) else r
    case SyncResult(c) => RunAll(c)
  }

  function RunAllFrom(b: Builder, current: Info, ts: seq<Test>): Result<Info, Error>
    decreases ts
  {
    if ts == [] then Ok(current)
    else
      match RunAll(ts[0])
      case Err(e) => Err(e)
      case Ok(v) => RunAllFrom(b, Add(b, current, v), ts[1..])
  }

  /** No compilation test that is run misses its submission. */
  predicate Found(t: Test) {
    match t
    case Single(_) => true
    case Testset(_, ts) => forall c :: c in ts ==> Found(c)
    case Compilation(compile, c) =>
      compile != SubmissionMissing && (compile == Compiled || compile == CleanupFails ==> Found(c))
    case SyncResult(c) => Found(c)
  }

  /** Running everything throws exactly when a submission is missing. */
  lemma {:induction false} RunAllOkIff(t: Test)
    ensures RunAll(t).Ok? <==> Found(t)
    decreases t
  {
    match t
    case Single(_) =>
    case Testset(b, ts) => RunAllFromOkIff(b, Start(b), ts);
    case Compilation(_, c) => RunAllOkIff(c);
    case SyncResult(c) => RunAllOkIff(c);
  }

  lemma {:induction false} RunAllFromOkIff(b: Builder, current: Info, ts: seq<Test>)
    ensures RunAllFrom(b, current, ts).Ok? <==> forall c :: c in ts ==> Found(c)
    decreases ts
  {
    if ts != [] {
      RunAllOkIff(ts[0]);
      assert ts == [ts[0]] + ts[1..];
      if RunAll(ts[0]).Ok? {
        RunAllFromOkIff(b, Add(b, current, RunAll(ts[0]).value), ts[1..]);
      }
    }
  }

  /** What running everything reports: a testset the fold of its children, a compilation test by how it goes. */
  lemma {:induction false} RunAllReports(outcome: Info, compile: Compile, child: Test, b: Builder, ts: seq<Test>)
    ensures RunAll(Single(outcome)) == Ok(outcome) && RunAll(SyncResult(child)) == RunAll(child)
    ensures var r := RunAll(Compilation(compile, child));
            && (compile == SubmissionMissing ==> r == Err(SubmissionNotFound))
            && (compile == PrepareFails || compile == CheckerCopyFails ==> Nothing(r, FailedT, "FAIL"))
            && (compile == CompileFails ==> Nothing(r, WrongT, "CE"))
            && (compile == CleanupFails && RunAll(child).Ok? ==> Nothing(r, FailedT, "FAIL"))
            && (compile == Compiled ==> r == RunAll(child))
    ensures (forall c :: c in ts ==> RunAll(c).Ok?) ==>
              RunAll(Testset(b, ts)) == Ok(Fold(b, RunAllScores(ts)))
  {
    if forall c :: c in ts ==> RunAll(c).Ok? {
      RunAllIsFold(b, Start(b), ts);
      FoldIsFoldFrom(b, RunAllScores(ts));
    }
  }

  /** What a leaf reports: full score and accepted, or no score and wrong or failed. */
  predicate Coupled(v: Info) {
    || (v.score == 0.0 && (v.kind.cls == WrongT || v.kind.cls == FailedT))
    || (v.score == 100.0 && v.kind.cls == AcceptedT)
  }

  /** A tree of Min testsets over such leaves. */
  predicate MinTree(t: Test) {
    match t
    case Single(outcome) => Coupled(outcome)
    case Testset(b, ts) => b == Min && forall c :: c in ts ==> MinTree(c)
    case Compilation(_, c) => MinTree(c)
    case SyncResult(c) => MinTree(c)
  }

  /** `early` against `full`: the same score, the same acceptance, and the same type unless a failure was skipped. */
  predicate Refines(early: Info, full: Info) {
    && Coupled(early) && Coupled(full)
    && early.score == full.score
    && (full.kind.cls != FailedT ==> early.kind == full.kind)
  }

  lemma {:induction false} AddRefines(early: Info, full: Info, e: Info, f: Info)
    requires Refines(early, full) && CanChange(early) && Refines(e, f)
    ensures Refines(Add(Min, early, e), Add(Min, full, f))
  {
  }

  lemma {:induction false} SkipRefines(early: Info, full: Info, k: Info, f: Info)
    requires Refines(early, full) && !CanChange(early) && Mild(k) && Coupled(f)
    ensures Refines(Add(Min, early, k), Add(Min, full, f))
  {
  }

  /**
   * For every tree of Min testsets, the run with early skipping gives the score of the run of everything, accepts
   * exactly what it accepts, and reports the same verdict type unless the full run would have failed.
   */
  lemma {:induction false} EarlySkipRefinesRunAll(t: Test, boxes: nat)
    requires MinTree(t) && boxes >= 2 && RunAll(t).Ok?
    ensures Run(t, boxes).Ok? && Refines(Run(t, boxes).value, RunAll(t).value)
    ensures Run(t, boxes).value.score == RunAll(t).value.score
    ensures Run(t, boxes).value.kind.cls == AcceptedT <==> RunAll(t).value.kind.cls == AcceptedT
    ensures RunAll(t).value.kind.cls != FailedT ==> Run(t, boxes).value.kind == RunAll(t).value.kind
    decreases t
  {
    BoxesAreForLeaves(t);
    match t
    case Single(_) =>
    case Testset(b, ts) => ChildrenRefine(Start(Min), Start(Min), ts, boxes);
    case Compilation(compile, c) =>
      if compile == Compiled || compile == CleanupFails {
        EarlySkipRefinesRunAll(c, boxes);
      }
    case SyncResult(c) => EarlySkipRefinesRunAll(c, boxes);
  }

  lemma {:induction false} ChildrenRefine(early: Info, full: Info, ts: seq<Test>, boxes: nat)
    requires Refines(early, full) && boxes >= 2 && forall c :: c in ts ==> MinTree(c)
    requires RunAllFrom(Min, full, ts).Ok?
    ensures RunFrom(Min, early, ts, boxes).Ok?
    ensures Refines(RunFrom(Min, early, ts, boxes).value, RunAllFrom(Min, full, ts).value)
    decreases ts
  {
    if ts != [] {
      EarlySkipRefinesRunAll(ts[0], boxes);
      var f := RunAll(ts[0]).value;
      if CanChange(early) {
        var e := Run(ts[0], boxes).value;
        AddRefines(early, full, e, f);
        ChildrenRefine(Add(Min, early, e), Add(Min, full, f), ts[1..], boxes);
      } else {
        SkipMild(ts[0]);
        SkipRefines(early, full, Skip(ts[0]), f);
        ChildrenRefine(Add(Min, early, Skip(ts[0])), Add(Min, full, f), ts[1..], boxes);
      }
    }
  }

  // ----- Sum -----

  /** The child at `z` is the first that scores when it is skipped; there is none when `z` is their number. */
  ghost predicate FirstScoring(ts: seq<Test>, z: nat) {
    && z <= |ts| && (forall k :: 0 <= k < z ==> Skip(ts[k]).score == 0.0)
    && (z < |ts| ==> Skip(ts[z]).score > 0.0)
  }

  /** How many children are skipped. */
  function SkippedUpTo(ts: seq<Test>, z: nat): nat {
    if z < |ts| then z + 1 else |ts|
  }

  lemma {:induction false} SumSkipsFrom(current: Info, rs: seq<Info>, ks: seq<Info>, z: nat)
    requires |rs| == |ks| && z <= |ks| && current.score == 0.0 && AllNonNegative(rs)
    requires (forall k :: 0 <= k < z ==> ks[k].score == 0.0) && (z < |ks| ==> ks[z].score > 0.0)
    ensures var n := if z < |ks| then z + 1 else z;
            EarlyFrom(Sum, current, rs, ks) == FoldFrom(Sum, current, ks[..n] + rs[n..])
    decreases z
  {
    if ks != [] {
      var n := if z < |ks| then z + 1 else z;
      var next := Add(Sum, current, ks[0]);
      var blend := ks[..n] + rs[n..];
      if z == 0 {
        assert blend[0] == ks[0] && blend[1..] == rs[1..];
        PositiveSkipsNone(Sum, next, rs[1..], ks[1..]);
      } else {
        assert blend[0] == ks[0] && blend[1..] == ks[1..][..n - 1] + rs[1..][n - 1..];
        SumSkipsFrom(next, rs[1..], ks[1..], z - 1);
      }
    } else {
      assert ks[..0] + rs[0..] == [];
    }
  }

  lemma {:induction false} ZerosAddNothing(vs: seq<Info>)
    requires forall k :: 0 <= k < |vs| - 1 ==> vs[k].score == 0.0
    ensures Fold(Sum, vs).score == if vs == [] then 0.0 else vs[|vs| - 1].score
    decreases |vs|
  {
    if vs != [] {
      ZerosAddNothing(vs[..|vs| - 1]);
    }
  }

  /**
   * A Sum testset starts at score zero, so it takes its score for final and skips its children, up to the first one
   * that scores when skipped (an empty Min testset below it); from there on it runs the rest.
   */
  lemma {:induction false} SumTestsetRuns(ts: seq<Test>, boxes: nat, z: nat)
    requires boxes >= BoxesRequired(Testset(Sum, ts)) && AllRun(ts, boxes) && AllNonNegative(Runs(ts, boxes))
    requires FirstScoring(ts, z)
    ensures var n := SkippedUpTo(ts, z);
            Run(Testset(Sum, ts), boxes) == Ok(Fold(Sum, Skips(ts)[..n] + Runs(ts, boxes)[n..]))
  {
    var rs, ks, n := Runs(ts, boxes), Skips(ts), SkippedUpTo(ts, z);
    RunIsEarly(Sum, Start(Sum), ts, boxes);
    SumSkipsFrom(Start(Sum), rs, ks, z);
    FoldIsFoldFrom(Sum, ks[..n] + rs[n..]);
  }

  lemma {:induction false} BlendScore(rs: seq<Info>, ks: seq<Info>, n: nat)
    requires |rs| == |ks| && n <= |ks| && forall k :: 0 <= k < n - 1 ==> ks[k].score == 0.0
    ensures Fold(Sum, ks[..n] + rs[n..]).score == (if n == 0 then 0.0 else ks[n - 1].score) + Fold(Sum, rs[n..]).score
    ensures Fold(Sum, rs).score == Fold(Sum, rs[..n]).score + Fold(Sum, rs[n..]).score
  {
    FoldSumAppend(ks[..n], rs[n..]);
    ZerosAddNothing(ks[..n]);
    FoldSumAppend(rs[..n], rs[n..]);
    assert rs == rs[..n] + rs[n..];
  }

  /** What the last skipped child scores. */
  function LastSkipped(ts: seq<Test>, z: nat): real {
    if z < |ts| then Skip(ts[z]).score else 0.0
  }

  /**
   * So its score is right exactly when the skipped children would have scored together what the last of them does
   * skipped.
   */
  lemma {:induction false} SumTestsetScoreIff(ts: seq<Test>, boxes: nat, z: nat)
    requires boxes >= BoxesRequired(Testset(Sum, ts)) && AllRun(ts, boxes) && AllNonNegative(Runs(ts, boxes))
    requires FirstScoring(ts, z)
    ensures Run(Testset(Sum, ts), boxes).Ok?
    ensures var rs, n := Runs(ts, boxes), SkippedUpTo(ts, z);
            var score := Run(Testset(Sum, ts), boxes).value.score;
            && score == LastSkipped(ts, z) + Fold(Sum, rs[n..]).score
            && (score == Fold(Sum, rs).score <==> Fold(Sum, rs[..n]).score == LastSkipped(ts, z))
  {
    var rs, ks, n := Runs(ts, boxes), Skips(ts), SkippedUpTo(ts, z);
    SumTestsetRuns(ts, boxes, z);
    BlendScore(rs, ks, n);
    assert (if n == 0 then 0.0 else ks[n - 1].score) == LastSkipped(ts, z);
    hide Fold, Run, Runs, Skips;
  }

  /** In particular, when no child scores skipped: it scores nothing, which is right exactly when none scores run. */
  lemma {:induction false} SumTestsetZeroIff(ts: seq<Test>, boxes: nat)
    requires boxes >= BoxesRequired(Testset(Sum, ts)) && AllRun(ts, boxes) && AllNonNegative(Runs(ts, boxes))
    requires FirstScoring(ts, |ts|)
    ensures Run(Testset(Sum, ts), boxes).Ok? && Run(Testset(Sum, ts), boxes).value.score == 0.0
    ensures Fold(Sum, Runs(ts, boxes)).score == 0.0 <==> forall k :: 0 <= k < |ts| ==> Runs(ts, boxes)[k].score == 0.0
  {
    SumTestsetScoreIff(ts, boxes, |ts|);
    assert Runs(ts, boxes)[|ts|..] == [];
    SumPositiveIff(Runs(ts, boxes));
  }

  /** It happens: an empty Min testset scores when skipped, and the next child is run. */
  lemma {:induction false} SumRunsAfterEmptyTestset(x: Info, boxes: nat)
    requires boxes >= 2 && x.score >= 0.0
    ensures var ts := [Testset(Min, []), Single(x)];
            Run(Testset(Sum, ts), boxes).Ok? && Run(Testset(Sum, ts), boxes).value.score == 100.0 + x.score
  {
    var ts := [Testset(Min, []), Single(x)];
    BoxesAreForLeaves(Testset(Sum, ts));
    BoxesAreForLeaves(ts[0]);
    assert SkipFrom(Min, Start(Min), []) == Start(Min) && RunFrom(Min, Start(Min), [], boxes) == Ok(Start(Min));
    assert Skip(ts[0]).score == 100.0 && Run(ts[0], boxes).Ok? && Run(ts[1], boxes) == Ok(x);
    SumTestsetScoreIff(ts, boxes, 0);
    assert Runs(ts, boxes)[1..] == [x];
    ZerosAddNothing([x]);
  }

  // ----- Without empty testsets -----

  lemma {:induction false} SumRunsNoneFrom(current: Info, ts: seq<Test>, boxes: nat)
    requires current.score == 0.0 && forall c :: c in ts ==> Full(c)
    ensures RunFrom(Sum, current, ts, boxes) == Ok(SkipFrom(Sum, current, ts))
    decreases ts
  {
    if ts != [] {
      SkipScoresZero(ts[0]);
      SumRunsNoneFrom(Add(Sum, current, Skip(ts[0])), ts[1..], boxes);
    }
  }

  /** Without an empty testset below it no child scores when skipped: a Sum testset skips them all. */
  lemma {:induction false} SumTestsetRunsNothing(ts: seq<Test>, boxes: nat)
    requires boxes >= BoxesRequired(Testset(Sum, ts)) && forall c :: c in ts ==> Full(c)
    ensures Run(Testset(Sum, ts), boxes) == Ok(Skip(Testset(Sum, ts)))
    ensures Skip(Testset(Sum, ts)).score == 0.0
  {
    SumRunsNoneFrom(Start(Sum), ts, boxes);
    SkipFromZero(Sum, Start(Sum), ts);
  }

  function RunAllScores(ts: seq<Test>): seq<Info>
    requires forall c :: c in ts ==> RunAll(c).Ok?
  {
    seq(|ts|, k requires 0 <= k < |ts| => RunAll(ts[k]).value)
  }

  lemma {:induction false} RunAllIsFold(b: Builder, current: Info, ts: seq<Test>)
    requires forall c :: c in ts ==> RunAll(c).Ok?
    ensures RunAllFrom(b, current, ts) == Ok(FoldFrom(b, current, RunAllScores(ts)))
    decreases |ts|
  {
    if ts != [] {
      assert RunAllScores(ts)[1..] == RunAllScores(ts[1..]);
      RunAllIsFold(b, Add(b, current, RunAll(ts[0]).value), ts[1..]);
    }
  }

  lemma {:induction false} SumPositiveIff(vs: seq<Info>)
    requires AllNonNegative(vs)
    ensures Fold(Sum, vs).score >= 0.0
    ensures Fold(Sum, vs).score == 0.0 <==> forall k :: 0 <= k < |vs| ==> vs[k].score == 0.0
  {
    if vs != [] {
      var front := vs[..|vs| - 1];
      SumPositiveIff(front);
      assert forall k :: 0 <= k < |front| ==> front[k] == vs[k];
    }
  }

  /** And it reports the score of its children exactly when none of them scores anything. */
  lemma {:induction false} SumScoreRightIff(ts: seq<Test>, boxes: nat)
    requires boxes >= BoxesRequired(Testset(Sum, ts)) && forall c :: c in ts ==> Full(c)
    requires forall c :: c in ts ==> RunAll(c).Ok? && RunAll(c).value.score >= 0.0
    ensures Run(Testset(Sum, ts), boxes).Ok? && RunAll(Testset(Sum, ts)).Ok?
    ensures Run(Testset(Sum, ts), boxes).value.score == RunAll(Testset(Sum, ts)).value.score <==>
            forall c :: c in ts ==> RunAll(c).value.score == 0.0
  {
    SumTestsetRunsNothing(ts, boxes);
    RunAllIsFold(Sum, Start(Sum), ts);
    FoldIsFoldFrom(Sum, RunAllScores(ts));
    SumPositiveIff(RunAllScores(ts));
    AllScoresZero(ts);
  }

  lemma {:induction false} AllScoresZero(ts: seq<Test>)
    requires forall c :: c in ts ==> RunAll(c).Ok?
    ensures (forall k :: 0 <= k < |ts| ==> RunAllScores(ts)[k].score == 0.0) <==>
            (forall c :: c in ts ==> RunAll(c).value.score == 0.0)
  {
    hide RunAll;
    var vs := RunAllScores(ts);
    assert forall k :: 0 <= k < |ts| ==> ts[k] in ts && vs[k] == RunAll(ts[k]).value;
    if forall k :: 0 <= k < |ts| ==> vs[k].score == 0.0 {
      forall c | c in ts
        ensures RunAll(c).value.score == 0.0
      {
        var k :| 0 <= k < |ts| && ts[k] == c;
        assert vs[k].score == 0.0;
      }
    }
  }

  /** So a Sum testset of such children is partial, whatever its tests would have given. */
  lemma {:induction false} SumTestsetIsPartial(ts: seq<Test>, boxes: nat)
    requires boxes >= BoxesRequired(Testset(Sum, ts)) && ts != [] && forall c :: c in ts ==> Full(c)
    ensures Run(Testset(Sum, ts), boxes).Ok?
    ensures Run(Testset(Sum, ts), boxes).value.kind.cls == PartialT && Run(Testset(Sum, ts), boxes).value.score == 0.0
  {
    SumTestsetRunsNothing(ts, boxes);
    SkippedSumIsPartial(ts);
  }
}
