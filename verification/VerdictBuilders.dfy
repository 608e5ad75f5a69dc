/** How a testset folds the verdicts of its children: the "min" and the "sum" builder. */
module VerdictBuilders {
  import opened Prelude

  datatype Class = AcceptedT | PartialT | SkippedT | WrongT | FailedT

  /** A verdict type: its class and its short name. */
  datatype VerdictType = VerdictType(cls: Class, shortName: string)

  const ACCEPTED := VerdictType(AcceptedT, "AC")
  const PARTIAL := VerdictType(PartialT, "PT")
  const SKIPPED := VerdictType(SkippedT, "SK")
  const COMPILATION_ERROR := VerdictType(WrongT, "CE")
  const FAILED := VerdictType(FailedT, "FAIL")

  datatype Info = Info(kind: VerdictType, score: real, time: real, memory: real, realTime: real)

  datatype Builder = Min | Sum

  function RMin(a: real, b: real): real { if b < a then b else a }

  function RMax(a: real, b: real): real { if a < b then b else a }

  /** The verdict a builder starts from after clear(). */
  function Start(b: Builder): Info {
    Info(ACCEPTED, if b == Min then 100.0 else 0.0, 0.0, 0.0, 0.0)
  }

  function MinType(current: VerdictType, added: VerdictType): VerdictType {
    match current.cls
    case AcceptedT => added
    case PartialT => if added.cls == AcceptedT then current else added
    case SkippedT => if added.cls == FailedT || added.cls == WrongT || added.cls == PartialT then added else current
    case WrongT => if added.cls == FailedT then added else current
    case FailedT => current
  }

  function SumType(current: VerdictType, added: VerdictType): VerdictType {
    match current.cls
    case AcceptedT => if added.cls == WrongT || added.cls == SkippedT then PARTIAL else added
    case PartialT => if added.cls == FailedT then added else current
    case SkippedT => if added.cls == SkippedT then current else added
    case WrongT =>
      if added.cls == FailedT || added.cls == PartialT then added
      else if added.cls == AcceptedT then PARTIAL
      else current
    case FailedT => current
  }

  function Add(b: Builder, current: Info, added: Info): Info {
    Info(if b == Min then MinType(current.kind, added.kind) else SumType(current.kind, added.kind),
         if b == Min then RMin(current.score, added.score) else current.score + added.score,
         RMax(current.time, added.time),
         RMax(current.memory, added.memory),
         RMax(current.realTime, added.realTime))
  }

  function Fold(b: Builder, vs: seq<Info>): Info {
    if vs == [] then Start(b) else Add(b, Fold(b, vs[..|vs| - 1]), vs[|vs| - 1])
  }

  class VerdictBuilder {
    const builder: Builder
    var current: Info

    constructor (builder: Builder)
      ensures this.builder == builder && current == Start(builder)
    {
      this.builder := builder;
      current := Start(builder);
    }

    method Clear()
      modifies this
      ensures current == Start(builder)
    {
      current := Start(builder);
    }

    method AddVerdict(v: Info)
      modifies this
      ensures current == Add(builder, old(current), v)
    {
      var kind: VerdictType;
      if builder == Min {
        if current.kind.cls == AcceptedT {
          kind := v.kind;
        } else if current.kind.cls == PartialT {
          kind := if v.kind.cls == AcceptedT then current.kind else v.kind;
        } else if current.kind.cls == SkippedT {
          kind := if v.kind.cls == FailedT || v.kind.cls == WrongT || v.kind.cls == PartialT
            then v.kind else current.kind;
        } else if current.kind.cls == WrongT {
          kind := if v.kind.cls == FailedT then v.kind else current.kind;
        } else {
          kind := current.kind;
        }
      } else {
        if current.kind.cls == AcceptedT {
          kind := if v.kind.cls == WrongT || v.kind.cls == SkippedT then PARTIAL else v.kind;
        } else if current.kind.cls == PartialT {
          kind := if v.kind.cls == FailedT then v.kind else current.kind;
        } else if current.kind.cls == SkippedT {
          kind := if v.kind.cls == SkippedT then current.kind else v.kind;
        } else if current.kind.cls == WrongT {
          kind := if v.kind.cls == FailedT || v.kind.cls == PartialT then v.kind
                  else if v.kind.cls == AcceptedT then PARTIAL
                  else current.kind;
        } else {
          kind := current.kind;
        }
      }
      current := Info(kind,
                      if builder == Min then RMin(current.score, v.score) else current.score + v.score,
                      RMax(current.time, v.time),
                      RMax(current.memory, v.memory),
                      RMax(current.realTime, v.realTime));
    }

    /** Both builders use the same test. */
    method CanScoreChange() returns (r: bool)
      ensures r == CanChange(current)
    {
      return current.score != 0.0;
    }
  }

  predicate CanChange(current: Info) {
    current.score != 0.0
  }

  // ----- Closed forms -----

  ghost predicate SomeClass(vs: seq<Info>, c: Class) {
    exists k :: 0 <= k < |vs| && vs[k].kind.cls == c
  }

  ghost predicate AllAccepted(vs: seq<Info>) {
    forall k :: 0 <= k < |vs| ==> vs[k].kind.cls == AcceptedT
  }

  lemma {:induction false} SomeClassSnoc(vs: seq<Info>, c: Class)
    requires vs != []
    ensures SomeClass(vs, c) <==> SomeClass(vs[..|vs| - 1], c) || vs[|vs| - 1].kind.cls == c
  {
    var front := vs[..|vs| - 1];
    if SomeClass(front, c) {
      var k :| 0 <= k < |front| && front[k].kind.cls == c;
      assert vs[k].kind.cls == c;
    }
    if SomeClass(vs, c) && vs[|vs| - 1].kind.cls != c {
      var k :| 0 <= k < |vs| && vs[k].kind.cls == c;
      assert front[k].kind.cls == c;
    }
  }

  /** Sum: failed when a child failed, accepted when all are, partial otherwise; never wrong or skipped. */
  lemma {:induction false} SumClass(vs: seq<Info>)
    ensures Fold(Sum, vs).kind.cls ==
            if SomeClass(vs, FailedT) then FailedT else if AllAccepted(vs) then AcceptedT else PartialT
  {
    if vs != [] {
      SumClass(vs[..|vs| - 1]);
      SomeClassSnoc(vs, FailedT);
      assert AllAccepted(vs) <==> AllAccepted(vs[..|vs| - 1]) && vs[|vs| - 1].kind.cls == AcceptedT;
    }
  }

  /** The last child that is partial or skipped. */
  ghost predicate LastIncomplete(vs: seq<Info>, c: Class) {
    exists k :: 0 <= k < |vs| && vs[k].kind.cls == c && forall j :: k < j < |vs| ==> vs[j].kind.cls == AcceptedT
  }

  /** Min: failed over wrong over the last partial or skipped child over accepted. */
  lemma {:induction false} MinClass(vs: seq<Info>)
    ensures var c := Fold(Min, vs).kind.cls;
            && (c == FailedT <==> SomeClass(vs, FailedT))
            && (c == WrongT <==> !SomeClass(vs, FailedT) && SomeClass(vs, WrongT))
            && (c == AcceptedT <==> AllAccepted(vs))
            && (c == PartialT || c == SkippedT ==> LastIncomplete(vs, c))
  {
    if vs != [] {
      var front, last := vs[..|vs| - 1], vs[|vs| - 1];
      MinClass(front);
      SomeClassSnoc(vs, FailedT);
      SomeClassSnoc(vs, WrongT);
      assert AllAccepted(vs) <==> AllAccepted(front) && last.kind.cls == AcceptedT;
      var c := Fold(Min, vs).kind.cls;
      if (c == PartialT || c == SkippedT) && last.kind.cls == AcceptedT {
        var k :| 0 <= k < |front| && front[k].kind.cls == c && forall j :: k < j < |front| ==>
            front[j].kind.cls == AcceptedT;
        assert vs[k].kind.cls == c && forall j :: k < j < |vs| ==> vs[j].kind.cls == AcceptedT by {
          assert forall j :: k < j < |front| ==> vs[j] == front[j];
        }
      } else if c == PartialT || c == SkippedT {
        assert vs[|vs| - 1].kind.cls == c;
      }
    }
  }

  /** Min keeps the type of the first failed child, or without one of the first wrong child. */
  lemma {:induction false} MinKeepsFirstFault(vs: seq<Info>, k: nat)
    requires k < |vs|
    requires vs[k].kind.cls == FailedT || (vs[k].kind.cls == WrongT && !SomeClass(vs, FailedT))
    requires forall j :: 0 <= j < k ==> vs[j].kind.cls != vs[k].kind.cls
    ensures Fold(Min, vs).kind == vs[k].kind
  {
    var front := vs[..|vs| - 1];
    MinClass(front);
    SomeClassSnoc(vs, FailedT);
    if k < |front| {
      MinKeepsFirstFault(front, k);
    } else {
      assert !SomeClass(front, vs[k].kind.cls);
    }
  }

  /** The score, and the three resources, of a Min fold are extrema of the children and of the starting verdict. */
  lemma {:induction false} MinExtrema(vs: seq<Info>)
    ensures var r := Fold(Min, vs);
            && (forall v :: v in vs ==>
                 r.score <= v.score && v.time <= r.time && v.memory <= r.memory && v.realTime <= r.realTime)
            && r.score <= 100.0 && 0.0 <= r.time && 0.0 <= r.memory && 0.0 <= r.realTime
            && (r.score == 100.0 || exists v :: v in vs && v.score == r.score)
            && (r.time == 0.0 || exists v :: v in vs && v.time == r.time)
            && (r.memory == 0.0 || exists v :: v in vs && v.memory == r.memory)
            && (r.realTime == 0.0 || exists v :: v in vs && v.realTime == r.realTime)
  {
    if vs != [] {
      var front, last := vs[..|vs| - 1], vs[|vs| - 1];
      MinExtrema(front);
      assert vs == front + [last];
      assert forall v :: v in vs <==> v in front || v == last;
      assert last in vs;
    }
  }

  /** Resources are folded alike by both builders. */
  lemma {:induction false} SameResources(vs: seq<Info>)
    ensures var a, b := Fold(Min, vs), Fold(Sum, vs);
            a.time == b.time && a.memory == b.memory && a.realTime == b.realTime
  {
    if vs != [] {
      SameResources(vs[..|vs| - 1]);
    }
  }

  lemma {:induction false} FoldSumAppend(a: seq<Info>, b: seq<Info>)
    ensures Fold(Sum, a + b).score == Fold(Sum, a).score + Fold(Sum, b).score
  {
    if b == [] {
      assert a + b == a;
    } else {
      assert (a + b)[..|a + b| - 1] == a + b[..|b| - 1];
      FoldSumAppend(a, b[..|b| - 1]);
    }
  }

  lemma {:induction false} SumScoreOfBag(vs: seq<Info>, ws: seq<Info>)
    requires multiset(vs) == multiset(ws)
    ensures Fold(Sum, vs).score == Fold(Sum, ws).score
  {
    if vs == [] {
      assert |multiset(ws)| == 0;
    } else {
      var v := vs[|vs| - 1];
      assert v in multiset(ws);
      var k :| 0 <= k < |ws| && ws[k] == v;
      var front, rest := vs[..|vs| - 1], RemoveAt(ws, k);
      RemoveAtMultiset(vs, |vs| - 1);
      RemoveAtMultiset(ws, k);
      assert RemoveAt(vs, |vs| - 1) == front;
      MultisetCancel(multiset(front), multiset(rest), multiset{v});
      SumScoreOfBag(front, rest);
      SumWithoutOne(ws, k);
    }
  }

  lemma {:induction false} SumWithoutOne(ws: seq<Info>, k: nat)
    requires k < |ws|
    ensures Fold(Sum, ws).score == Fold(Sum, RemoveAt(ws, k)).score + ws[k].score
  {
    assert ws == ws[..k] + ([ws[k]] + ws[k + 1..]);
    FoldSumAppend(ws[..k], [ws[k]] + ws[k + 1..]);
    FoldSumAppend([ws[k]], ws[k + 1..]);
    FoldSumAppend(ws[..k], ws[k + 1..]);
    assert Fold(Sum, [ws[k]]).score == ws[k].score by {
      assert [ws[k]][..0] == [];
    }
  }

  /** The order of the children does not matter to Sum, nor to Min outside partial and skipped results. */
  lemma {:induction false} OrderOfChildren(vs: seq<Info>, ws: seq<Info>)
    requires multiset(vs) == multiset(ws)
    ensures var a, b := Fold(Sum, vs), Fold(Sum, ws);
            a.kind.cls == b.kind.cls && a.score == b.score && a.time == b.time && a.memory == b.memory
              && a.realTime == b.realTime
    ensures var a, b := Fold(Min, vs), Fold(Min, ws);
            a.score == b.score && a.time == b.time && a.memory == b.memory && a.realTime == b.realTime
    ensures var a, b := Fold(Min, vs).kind.cls, Fold(Min, ws).kind.cls;
            a == b || (a in {PartialT, SkippedT} && b in {PartialT, SkippedT})
  {
    assert forall v :: v in vs <==> v in multiset(vs);
    assert forall v :: v in ws <==> v in multiset(ws);
    SumScoreOfBag(vs, ws);
    SameResources(vs);
    SameResources(ws);
    MinExtrema(vs);
    MinExtrema(ws);
    ClassesOfBag(vs, ws);
    SumClass(vs);
    SumClass(ws);
    MinClass(vs);
    MinClass(ws);
  }

  lemma {:induction false} ClassesOfBag(vs: seq<Info>, ws: seq<Info>)
    requires forall v :: v in vs <==> v in ws
    ensures forall c :: SomeClass(vs, c) <==> SomeClass(ws, c)
    ensures AllAccepted(vs) <==> AllAccepted(ws)
  {
    forall c
      ensures SomeClass(vs, c) <==> SomeClass(ws, c)
    {
      SomeClassMember(vs, ws, c);
      SomeClassMember(ws, vs, c);
    }
    assert AllAccepted(vs) <==> forall v :: v in vs ==> v.kind.cls == AcceptedT;
    assert AllAccepted(ws) <==> forall v :: v in ws ==> v.kind.cls == AcceptedT;
  }

  lemma {:induction false} SomeClassMember(vs: seq<Info>, ws: seq<Info>, c: Class)
    requires forall v :: v in vs ==> v in ws
    ensures SomeClass(vs, c) ==> SomeClass(ws, c)
  {
    if SomeClass(vs, c) {
      var k :| 0 <= k < |vs| && vs[k].kind.cls == c;
      assert vs[k] in ws;
      var j :| 0 <= j < |ws| && ws[j] == vs[k];
    }
  }

  /** What "sum" does from states that no fold reaches, besides keeping a failure and raising accepted and partial. */
  lemma {:induction false} SumTable(current: VerdictType, added: VerdictType)
    ensures current.cls == SkippedT ==> SumType(current, added) == if added.cls == SkippedT then current else added
    ensures current.cls == WrongT && (added.cls == FailedT || added.cls == PartialT) ==>
              SumType(current, added) == added
    ensures current.cls == WrongT && added.cls == AcceptedT ==> SumType(current, added) == VerdictType(PartialT, "PT")
    ensures current.cls == WrongT && (added.cls == WrongT || added.cls == SkippedT) ==>
              SumType(current, added) == current
    ensures current.cls == FailedT ==> SumType(current, added) == current
    ensures current.cls == PartialT ==> SumType(current, added) == if added.cls == FailedT then added else current
    ensures current.cls == AcceptedT && (added.cls == WrongT || added.cls == SkippedT) ==>
              SumType(current, added) == VerdictType(PartialT, "PT")
    ensures current.cls == AcceptedT && added.cls != WrongT && added.cls != SkippedT ==>
              SumType(current, added) == added
  {
  }
}
