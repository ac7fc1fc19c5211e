/** Debug call frames: the structural gate in front of normalization, the preorder flattening it
    guards, and the proof that what passes the gate is flattened without loss. */
module DebugTree {
  import opened Sequences
  import opened Types

  datatype Kind =
    | Call | CallCode | DelegateCall | StaticCall | Invalid
    | Create | Create2 | Selfdestruct | Stop | Unknown

  datatype TraceKind = TCall | TCreate | TSelfdestruct

  datatype Frame = Frame(
    frameType: string, from: string, to: Option<string>, input: Option<string>,
    output: Option<string>, gasUsed: Option<string>, calls: seq<Frame>)

  function Classify(t: string): Kind {
    if EqIgnoreAsciiCase(t, "CALL") then Call
    else if EqIgnoreAsciiCase(t, "CALLCODE") then CallCode
    else if EqIgnoreAsciiCase(t, "DELEGATECALL") then DelegateCall
    else if EqIgnoreAsciiCase(t, "STATICCALL") then StaticCall
    else if EqIgnoreAsciiCase(t, "INVALID") then Invalid
    else if EqIgnoreAsciiCase(t, "CREATE") then Create
    else if EqIgnoreAsciiCase(t, "CREATE2") then Create2
    else if EqIgnoreAsciiCase(t, "SELFDESTRUCT") then Selfdestruct
    else if EqIgnoreAsciiCase(t, "STOP") then Stop
    else Unknown
  }

  function Normalized(k: Kind): Option<TraceKind> {
    match k
    case Create => Some(TCreate)
    case Create2 => Some(TCreate)
    case Selfdestruct => Some(TSelfdestruct)
    case Stop => None
    case Unknown => None
    case _ => Some(TCall)
  }

  function KindOf(f: Frame): Option<TraceKind> {
    Normalized(Classify(f.frameType))
  }

  /** A type is what its name says, whatever its case. */
  lemma ClassifiedByName(t: string)
    ensures Classify(t) == Call <==> EqIgnoreAsciiCase(t, "CALL")
    ensures Classify(t) == CallCode <==> EqIgnoreAsciiCase(t, "CALLCODE")
    ensures Classify(t) == DelegateCall <==> EqIgnoreAsciiCase(t, "DELEGATECALL")
    ensures Classify(t) == StaticCall <==> EqIgnoreAsciiCase(t, "STATICCALL")
    ensures Classify(t) == Invalid <==> EqIgnoreAsciiCase(t, "INVALID")
    ensures Classify(t) == Create <==> EqIgnoreAsciiCase(t, "CREATE")
    ensures Classify(t) == Create2 <==> EqIgnoreAsciiCase(t, "CREATE2")
    ensures Classify(t) == Selfdestruct <==> EqIgnoreAsciiCase(t, "SELFDESTRUCT")
    ensures Classify(t) == Stop <==> EqIgnoreAsciiCase(t, "STOP")
  {
    hide EqIgnoreAsciiCase;
    OneNameOnly(t);
  }

  lemma OneNameOnly(t: string)
    ensures EqIgnoreAsciiCase(t, "CALL") ==> |t| == 4 && Fold(t[0]) == 'c'
    ensures EqIgnoreAsciiCase(t, "CALLCODE") ==> |t| == 8
    ensures EqIgnoreAsciiCase(t, "DELEGATECALL") ==> |t| == 12 && Fold(t[0]) == 'd'
    ensures EqIgnoreAsciiCase(t, "STATICCALL") ==> |t| == 10
    ensures EqIgnoreAsciiCase(t, "INVALID") ==> |t| == 7 && Fold(t[0]) == 'i'
    ensures EqIgnoreAsciiCase(t, "CREATE") ==> |t| == 6
    ensures EqIgnoreAsciiCase(t, "CREATE2") ==> |t| == 7 && Fold(t[0]) == 'c'
    ensures EqIgnoreAsciiCase(t, "SELFDESTRUCT") ==> |t| == 12 && Fold(t[0]) == 's'
    ensures EqIgnoreAsciiCase(t, "STOP") ==> |t| == 4 && Fold(t[0]) == 's'
  {
  }

  predicate HexDigit(c: char) {
    '0' <= c <= '9' || 'a' <= c <= 'f' || 'A' <= c <= 'F'
  }

  predicate IsAddress(s: string) {
    |s| == 42 && s[..2] == "0x" && forall i :: 2 <= i < 42 ==> HexDigit(s[i])
  }

  predicate NonEmpty(s: Option<string>) {
    s.Some? && s.value != ""
  }

  // ----- the gate ------------------------------------------------------------------------

  type Path = seq<nat>

  datatype Fault =
    | RootStopHasSubcalls | UnsupportedType | InvalidFrom | InvalidTo
    | NoTarget | NoInput | NoInitCode | ResultWithoutGas | NoBeneficiary

  datatype Violation = Violation(path: Path, fault: Fault)

  /** What is wrong with a mappable frame by itself, its children aside. */
  function OwnFault(f: Frame, kind: TraceKind): Option<Fault> {
    if !IsAddress(f.from) then Some(InvalidFrom)
    else if f.to.Some? && !(kind == TCreate && f.to.value == "") && !IsAddress(f.to.value) then Some(InvalidTo)
    else
      match kind
      case TCall =>
        if f.to.None? then Some(NoTarget) else if f.input.None? then Some(NoInput) else None
      case TCreate =>
        if f.input.None? then Some(NoInitCode)
        else if (NonEmpty(f.to) || NonEmpty(f.output)) && !NonEmpty(f.gasUsed) then Some(ResultWithoutGas)
        else None
      case TSelfdestruct =>
        if f.to.None? then Some(NoBeneficiary) else None
  }

  predicate IsCreation(f: Frame) {
    EqIgnoreAsciiCase(f.frameType, "CREATE") || EqIgnoreAsciiCase(f.frameType, "CREATE2")
  }

  predicate IsSelfdestruct(f: Frame) {
    EqIgnoreAsciiCase(f.frameType, "SELFDESTRUCT")
  }

  predicate IsCall(f: Frame) {
    || EqIgnoreAsciiCase(f.frameType, "CALL") || EqIgnoreAsciiCase(f.frameType, "CALLCODE")
    || EqIgnoreAsciiCase(f.frameType, "DELEGATECALL") || EqIgnoreAsciiCase(f.frameType, "STATICCALL")
    || EqIgnoreAsciiCase(f.frameType, "INVALID")
  }

  /** What a frame needs to be mapped, from its fields: a type that has a trace; addresses for sender
      and target, where a creation's target may be empty; a target and input for a call, init code for
      a creation, and gas for its result if it has one; a beneficiary for a selfdestruct. */
  predicate HasWhatItNeeds(f: Frame) {
    && (IsCall(f) || IsCreation(f) || IsSelfdestruct(f))
    && IsAddress(f.from)
    && (f.to.Some? ==> IsAddress(f.to.value) || (IsCreation(f) && f.to.value == ""))
    && (!IsCreation(f) ==> f.to.Some?)
    && (!IsSelfdestruct(f) ==> f.input.Some?)
    && (IsCreation(f) && (NonEmpty(f.to) || NonEmpty(f.output)) ==> NonEmpty(f.gasUsed))
  }

  lemma KindByName(f: Frame)
    ensures KindOf(f) == Some(TCall) <==> IsCall(f)
    ensures KindOf(f) == Some(TCreate) <==> IsCreation(f)
    ensures KindOf(f) == Some(TSelfdestruct) <==> IsSelfdestruct(f)
  {
    hide EqIgnoreAsciiCase, Classify;
    ClassifiedByName(f.frameType);
  }

  /** A frame has no fault of its own exactly when it has what it needs. */
  lemma OwnFaultMeans(f: Frame)
    ensures KindOf(f).Some? && OwnFault(f, KindOf(f).value).None? <==> HasWhatItNeeds(f)
  {
    hide IsCall, IsCreation, IsSelfdestruct, IsAddress, KindOf;
    KindByName(f);
  }

  /** The fault of the frame at `path`, its children aside: only the root may be a STOP. */
  function NodeFault(f: Frame, path: Path): Option<Fault> {
    if Classify(f.frameType) == Stop then
      if path == [] then (if f.calls == [] then None else Some(RootStopHasSubcalls)) else Some(UnsupportedType)
    else if KindOf(f).None? then Some(UnsupportedType)
    else OwnFault(f, KindOf(f).value)
  }

  /** The first violation in preorder. */
  function FrameIssue(f: Frame, path: Path): Option<Violation>
    decreases f, 1, 0
  {
    var own := NodeFault(f, path);
    if own.Some? then Some(Violation(path, own.value))
    else if Classify(f.frameType) == Stop then None
    else ChildIssue(f, path, 0)
  }

  function ChildIssue(f: Frame, path: Path, k: nat): Option<Violation>
    requires k <= |f.calls|
    decreases f, 0, |f.calls| - k
  {
    if k == |f.calls| then None
    else
      var issue := FrameIssue(f.calls[k], path + [k]);
      if issue.Some? then issue else ChildIssue(f, path, k + 1)
  }

  /** Check a frame and its subtree, pushing and popping the path buffer on the way down and up. */
  method CheckFrameStructure(f: Frame, path: Path) returns (issue: Option<Violation>, restored: Path)
    ensures issue == FrameIssue(f, path) && restored == path
    decreases f
  {
    restored := path;
    if Classify(f.frameType) == Stop {
      if path == [] {
        return if f.calls != [] then Some(Violation(path, RootStopHasSubcalls)) else None, restored;
      }
      return Some(Violation(path, UnsupportedType)), restored;
    }
    var kind := KindOf(f);
    if kind.None? {
      return Some(Violation(path, UnsupportedType)), restored;
    }
    var own := OwnFault(f, kind.value);
    if own.Some? {
      return Some(Violation(path, own.value)), restored;
    }
    for k := 0 to |f.calls|
      invariant restored == path && FrameIssue(f, path) == ChildIssue(f, path, k)
    {
      restored := restored + [k];
      issue, restored := CheckFrameStructure(f.calls[k], restored);
      restored := restored[..|restored| - 1];
      if issue.Some? {
        return;
      }
    }
    issue := None;
  }

  /** Every frame of the tree has what it needs. */
  predicate WellShaped(f: Frame) {
    && HasWhatItNeeds(f)
    && forall k :: 0 <= k < |f.calls| ==> WellShaped(f.calls[k])
  }

  lemma StopHasNoKind(f: Frame)
    ensures Classify(f.frameType) == Stop ==> KindOf(f).None?
  {
  }

  lemma {:induction false} NestedGate(f: Frame, path: Path)
    requires path != []
    ensures FrameIssue(f, path).None? <==> WellShaped(f)
    decreases f, 1, 0
  {
    hide HasWhatItNeeds, OwnFault, KindOf, Classify;
    OwnFaultMeans(f);
    StopHasNoKind(f);
    if NodeFault(f, path).None? {
      ChildGate(f, path, 0);
    }
  }

  lemma {:induction false} ChildGate(f: Frame, path: Path, k: nat)
    requires k <= |f.calls|
    ensures ChildIssue(f, path, k).None? <==> forall j :: k <= j < |f.calls| ==> WellShaped(f.calls[j])
    decreases f, 0, |f.calls| - k
  {
    hide WellShaped, FrameIssue;
    if k < |f.calls| {
      NestedGate(f.calls[k], path + [k]);
      ChildGate(f, path, k + 1);
    }
  }

  predicate EmptyTrace(root: Frame) {
    Classify(root.frameType) == Stop && root.calls == []
  }

  /** The gate passes exactly the empty transaction trace and the well-shaped trees. */
  lemma GateIsExact(root: Frame)
    ensures FrameIssue(root, []).None? <==> EmptyTrace(root) || WellShaped(root)
  {
    hide HasWhatItNeeds, OwnFault, KindOf, Classify;
    OwnFaultMeans(root);
    StopHasNoKind(root);
    if Classify(root.frameType) != Stop {
      ChildGate(root, [], 0);
    }
  }

  /** The frame a path leads to. */
  function FrameAt(f: Frame, path: Path): Option<Frame>
    decreases path
  {
    if path == [] then Some(f)
    else if path[0] >= |f.calls| then None
    else FrameAt(f.calls[path[0]], path[1..])
  }

  /** What each fault says of the frame at `path`, in its fields. */
  predicate Shows(f: Frame, path: Path, fault: Fault) {
    match fault
    case RootStopHasSubcalls => path == [] && EqIgnoreAsciiCase(f.frameType, "STOP") && f.calls != []
    case UnsupportedType => !IsCall(f) && !IsCreation(f) && !IsSelfdestruct(f)
    case InvalidFrom => !IsAddress(f.from)
    case InvalidTo => f.to.Some? && !IsAddress(f.to.value) && !(IsCreation(f) && f.to.value == "")
    case NoTarget => IsCall(f) && f.to.None?
    case NoInput => IsCall(f) && f.input.None?
    case NoInitCode => IsCreation(f) && f.input.None?
    case ResultWithoutGas => IsCreation(f) && (NonEmpty(f.to) || NonEmpty(f.output)) && !NonEmpty(f.gasUsed)
    case NoBeneficiary => IsSelfdestruct(f) && f.to.None?
  }

  lemma FaultShows(f: Frame, path: Path)
    ensures NodeFault(f, path).Some? ==> Shows(f, path, NodeFault(f, path).value)
  {
    hide IsCall, IsCreation, IsSelfdestruct, IsAddress, KindOf, Classify;
    KindByName(f);
    ClassifiedByName(f.frameType);
    StopHasNoKind(f);
  }

  /** The violation reported names a frame of the tree by its path, and the fault is that frame's. */
  lemma {:induction false} IssueIsLocated(f: Frame, path: Path)
    requires FrameIssue(f, path).Some?
    ensures var v := FrameIssue(f, path).value;
      && |v.path| >= |path| && v.path[..|path|] == path
      && FrameAt(f, v.path[|path|..]).Some?
      && NodeFault(FrameAt(f, v.path[|path|..]).value, v.path) == Some(v.fault)
      && Shows(FrameAt(f, v.path[|path|..]).value, v.path, v.fault)
    decreases f, 1, 0
  {
    hide NodeFault, Shows, Classify;
    FaultShows(f, path);
    if NodeFault(f, path).None? {
      ChildIssueIsLocated(f, path, 0);
    }
  }

  lemma {:induction false} ChildIssueIsLocated(f: Frame, path: Path, k: nat)
    requires k <= |f.calls| && ChildIssue(f, path, k).Some?
    ensures var v := ChildIssue(f, path, k).value;
      && |v.path| > |path| && v.path[..|path|] == path
      && FrameAt(f, v.path[|path|..]).Some?
      && NodeFault(FrameAt(f, v.path[|path|..]).value, v.path) == Some(v.fault)
      && Shows(FrameAt(f, v.path[|path|..]).value, v.path, v.fault)
    decreases f, 0, |f.calls| - k
  {
    hide NodeFault, Shows, Classify;
    if FrameIssue(f.calls[k], path + [k]).Some? {
      IssueIsLocated(f.calls[k], path + [k]);
      var v := FrameIssue(f.calls[k], path + [k]).value;
      assert v.path[..|path|] == v.path[..|path| + 1][..|path|] == path;
      assert v.path[|path|..][1..] == v.path[|path| + 1..];
      assert v.path[|path|] == v.path[..|path| + 1][|path|] == k;
    } else {
      ChildIssueIsLocated(f, path, k + 1);
    }
  }

  // ----- the flattening --------------------------------------------------------------------

  /** One visited frame: where it stands, how many children it has, and the frame itself. */
  datatype Visit = Visit(address: Path, subtraces: nat, frame: Frame)

  function Traverse(f: Frame, address: Path): seq<Visit>
    decreases f, 1, 0
  {
    [Visit(address, |f.calls|, f)] + TraverseFrom(f, address, 0)
  }

  /** The children from `k` on, each at its own address. */
  function TraverseFrom(f: Frame, address: Path, k: nat): seq<Visit>
    requires k <= |f.calls|
    decreases f, 0, |f.calls| - k
  {
    if k == |f.calls| then [] else Traverse(f.calls[k], address + [k]) + TraverseFrom(f, address, k + 1)
  }

  datatype Trace = Trace(address: Path, subtraces: nat, kind: TraceKind)

  /** The trace of a visited frame, if normalization keeps it: calls and selfdestructs need a
      target. */
  function TraceOf(v: Visit): Option<Trace> {
    match KindOf(v.frame)
    case None => None
    case Some(kind) =>
      if kind != TCreate && v.frame.to.None? then None else Some(Trace(v.address, v.subtraces, kind))
  }

  function Kept(visits: seq<Visit>): seq<Trace> {
    if visits == [] then []
    else Kept(visits[..|visits| - 1]) + KeptOne(visits[|visits| - 1])
  }

  function KeptOne(v: Visit): seq<Trace> {
    if TraceOf(v).Some? then [TraceOf(v).value] else []
  }

  function MappedTraces(root: Frame): seq<Trace> {
    if EmptyTrace(root) then [] else Kept(Traverse(root, []))
  }

  /** Flatten a transaction's frames into traces. */
  method MapDebugFrame(root: Frame) returns (traces: seq<Trace>)
    ensures traces == MappedTraces(root)
  {
    if EmptyTrace(root) {
      return [];
    }
    var visits := Traverse(root, []);
    traces := [];
    for i := 0 to |visits|
      invariant traces == Kept(visits[..i])
    {
      assert visits[..i + 1][..i] == visits[..i];
      var v := visits[i];
      if TraceOf(v).Some? {
        traces := traces + [TraceOf(v).value];
      }
    }
    assert visits[..|visits|] == visits;
  }

  lemma {:induction false} KeptAtMost(visits: seq<Visit>)
    ensures |Kept(visits)| <= |visits|
  {
    if visits != [] {
      KeptAtMost(visits[..|visits| - 1]);
    }
  }

  /** Where every visit is kept, trace `i` is the trace of visit `i`. */
  lemma {:induction false} KeptAll(visits: seq<Visit>)
    requires forall i :: 0 <= i < |visits| ==> TraceOf(visits[i]).Some?
    ensures |Kept(visits)| == |visits|
    ensures forall i :: 0 <= i < |visits| ==> Kept(visits)[i] == TraceOf(visits[i]).value
  {
    hide TraceOf;
    if visits != [] {
      KeptAll(visits[..|visits| - 1]);
    }
  }

  /** A visit not kept is a trace missing. */
  lemma {:induction false} KeptFewer(visits: seq<Visit>, i: nat)
    requires i < |visits| && TraceOf(visits[i]).None?
    ensures |Kept(visits)| < |visits|
  {
    hide TraceOf;
    var front := visits[..|visits| - 1];
    if i < |front| {
      KeptFewer(front, i);
    } else {
      KeptAtMost(front);
    }
  }

  /** Every frame of the tree is one normalization keeps. */
  predicate AllKept(f: Frame) {
    && TraceOf(Visit([], 0, f)).Some?
    && forall k :: 0 <= k < |f.calls| ==> AllKept(f.calls[k])
  }

  lemma {:induction false} WellShapedIsKept(f: Frame)
    requires WellShaped(f)
    ensures AllKept(f)
  {
    hide IsCall, IsCreation, IsSelfdestruct, IsAddress, KindOf;
    KindByName(f);
    forall k | 0 <= k < |f.calls|
      ensures AllKept(f.calls[k])
    {
      WellShapedIsKept(f.calls[k]);
    }
  }

  /** A visit is of the frame its address leads to, with that frame's number of children. */
  ghost predicate VisitOf(f: Frame, base: Path, v: Visit) {
    && |v.address| >= |base| && v.address[..|base|] == base
    && FrameAt(f, v.address[|base|..]) == Some(v.frame)
    && v.subtraces == |v.frame.calls|
  }

  lemma {:induction false} VisitsAreLocated(f: Frame, base: Path)
    ensures forall i :: 0 <= i < |Traverse(f, base)| ==> VisitOf(f, base, Traverse(f, base)[i])
    decreases f, 1, 0
  {
    ChildVisitsAreLocated(f, base, 0);
  }

  lemma {:induction false} ChildVisitsAreLocated(f: Frame, base: Path, k: nat)
    requires k <= |f.calls|
    ensures forall i :: 0 <= i < |TraverseFrom(f, base, k)| ==>
      var v := TraverseFrom(f, base, k)[i];
      VisitOf(f, base, v) && |v.address| > |base| && v.address[|base|] >= k
    decreases f, 0, |f.calls| - k
  {
    if k < |f.calls| {
      VisitsAreLocated(f.calls[k], base + [k]);
      ChildVisitsAreLocated(f, base, k + 1);
      forall v | v in Traverse(f.calls[k], base + [k])
        ensures VisitOf(f, base, v) && |v.address| > |base| && v.address[|base|] == k
      {
        assert VisitOf(f.calls[k], base + [k], v);
        assert v.address[..|base|] == v.address[..|base| + 1][..|base|] == base;
        assert v.address[|base|] == v.address[..|base| + 1][|base|] == k;
        assert v.address[|base|..][1..] == v.address[|base| + 1..];
      }
    }
  }

  // ----- nothing is lost ---------------------------------------------------------------------

  /** Every path of the tree is visited. */
  lemma {:induction false} EveryPathIsVisited(f: Frame, base: Path, path: Path)
    requires FrameAt(f, path).Some?
    ensures exists i :: 0 <= i < |Traverse(f, base)| && Traverse(f, base)[i].address == base + path
    decreases path, 1, 0
  {
    if path == [] {
      assert Traverse(f, base)[0].address == base == base + path;
    } else {
      ChildPathIsVisited(f, base, 0, path);
      var j :| 0 <= j < |TraverseFrom(f, base, 0)| && TraverseFrom(f, base, 0)[j].address == base + path;
      assert Traverse(f, base)[j + 1] == TraverseFrom(f, base, 0)[j];
    }
  }

  lemma {:induction false} ChildPathIsVisited(f: Frame, base: Path, k: nat, path: Path)
    requires path != [] && k <= path[0] < |f.calls| && FrameAt(f.calls[path[0]], path[1..]).Some?
    ensures exists j :: 0 <= j < |TraverseFrom(f, base, k)| && TraverseFrom(f, base, k)[j].address == base + path
    decreases path, 0, |f.calls| - k
  {
    var here := Traverse(f.calls[k], base + [k]);
    var later := TraverseFrom(f, base, k + 1);
    assert TraverseFrom(f, base, k) == here + later;
    if path[0] == k {
      EveryPathIsVisited(f.calls[k], base + [k], path[1..]);
      var i :| 0 <= i < |here| && here[i].address == base + [k] + path[1..];
      assert base + [k] + path[1..] == base + path;
      assert (here + later)[i] == here[i] && TraverseFrom(f, base, k)[i].address == base + path;
    } else {
      ChildPathIsVisited(f, base, k + 1, path);
      var j :| 0 <= j < |later| && later[j].address == base + path;
      assert (here + later)[|here| + j] == later[j];
      assert TraverseFrom(f, base, k)[|here| + j].address == base + path;
    }
  }

  /** Preorder on addresses: an ancestor first, else the smaller child at the first difference. */
  predicate Precedes(a: Path, b: Path) {
    if b == [] then false
    else if a == [] then true
    else a[0] < b[0] || (a[0] == b[0] && Precedes(a[1..], b[1..]))
  }

  lemma {:induction false} PrecedesUnder(base: Path, a: Path, b: Path)
    ensures Precedes(base + a, base + b) <==> Precedes(a, b)
  {
    if base == [] {
      assert base + a == a && base + b == b;
    } else {
      assert (base + a)[1..] == base[1..] + a && (base + b)[1..] == base[1..] + b;
      PrecedesUnder(base[1..], a, b);
    }
  }

  ghost predicate InPreorder(visits: seq<Visit>) {
    forall i, j :: 0 <= i < j < |visits| ==> Precedes(visits[i].address, visits[j].address)
  }

  /** Two visits below `base`, through children `k` and `m` with `k < m`, are in order. */
  lemma SiblingsInOrder(base: Path, a: Path, b: Path)
    requires |a| > |base| && |b| > |base| && a[..|base|] == base && b[..|base|] == base
    requires a[|base|] < b[|base|]
    ensures Precedes(a, b)
  {
    assert a == base + a[|base|..] && b == base + b[|base|..];
    PrecedesUnder(base, a[|base|..], b[|base|..]);
  }

  lemma ParentFirst(base: Path, b: Path)
    requires |b| > |base| && b[..|base|] == base
    ensures Precedes(base, b)
  {
    assert base == base + [] && b == base + b[|base|..];
    PrecedesUnder(base, [], b[|base|..]);
  }

  lemma {:induction false} VisitsInPreorder(f: Frame, base: Path)
    ensures InPreorder(Traverse(f, base))
    decreases f, 1, 0
  {
    ChildVisitsInPreorder(f, base, 0);
    ChildVisitsAreLocated(f, base, 0);
    var below := TraverseFrom(f, base, 0);
    forall j | 0 <= j < |below|
      ensures Precedes(base, below[j].address)
    {
      ParentFirst(base, below[j].address);
    }
  }

  lemma {:induction false} ChildVisitsInPreorder(f: Frame, base: Path, k: nat)
    requires k <= |f.calls|
    ensures InPreorder(TraverseFrom(f, base, k))
    decreases f, 0, |f.calls| - k
  {
    if k < |f.calls| {
      var here := Traverse(f.calls[k], base + [k]);
      var later := TraverseFrom(f, base, k + 1);
      VisitsInPreorder(f.calls[k], base + [k]);
      ChildVisitsInPreorder(f, base, k + 1);
      VisitsAreLocated(f.calls[k], base + [k]);
      ChildVisitsAreLocated(f, base, k + 1);
      forall i, j | 0 <= i < |here| && 0 <= j < |later|
        ensures Precedes(here[i].address, later[j].address)
      {
        var a := here[i].address;
        assert a[..|base|] == a[..|base| + 1][..|base|] == base;
        assert a[|base|] == a[..|base| + 1][|base|] == k;
        SiblingsInOrder(base, a, later[j].address);
      }
      PreorderConcat(here, later);
    }
  }

  lemma PreorderConcat(a: seq<Visit>, b: seq<Visit>)
    requires InPreorder(a) && InPreorder(b)
    requires forall i, j :: 0 <= i < |a| && 0 <= j < |b| ==> Precedes(a[i].address, b[j].address)
    ensures InPreorder(a + b)
  {
  }

  // ----- the violation reported is the first -----------------------------------------------

  lemma {:induction false} NoChildIssue(f: Frame, path: Path, k: nat, j: nat)
    requires k <= j < |f.calls| && ChildIssue(f, path, k).None?
    ensures FrameIssue(f.calls[j], path + [j]).None?
    decreases j - k
  {
    hide FrameIssue;
    if k < j {
      NoChildIssue(f, path, k + 1, j);
    }
  }

  /** Where the walk finds nothing there is nothing. */
  lemma {:induction false} CleanThroughout(f: Frame, path: Path, q: Path)
    requires FrameIssue(f, path).None? && FrameAt(f, q).Some?
    ensures NodeFault(FrameAt(f, q).value, path + q).None?
    decreases q
  {
    hide Classify, OwnFault, KindOf;
    if q == [] {
      assert path + q == path;
    } else {
      NoChildIssue(f, path, 0, q[0]);
      CleanThroughout(f.calls[q[0]], path + [q[0]], q[1..]);
      assert path + [q[0]] + q[1..] == path + q;
    }
  }

  /** No frame before the one reported, in preorder, has a fault. */
  lemma {:induction false} IssueIsFirst(f: Frame, path: Path, q: Path)
    requires FrameIssue(f, path).Some? && |FrameIssue(f, path).value.path| >= |path|
    requires FrameAt(f, q).Some? && Precedes(q, FrameIssue(f, path).value.path[|path|..])
    ensures NodeFault(FrameAt(f, q).value, path + q).None?
    decreases f, 1, 0
  {
    hide NodeFault, Classify;
    if NodeFault(f, path).None? {
      if q == [] {
        assert path + q == path;
      } else {
        ChildIssueIsFirst(f, path, 0, q);
      }
    }
  }

  lemma {:induction false} ChildIssueIsFirst(f: Frame, path: Path, k: nat, q: Path)
    requires k <= |f.calls| && ChildIssue(f, path, k).Some? && |ChildIssue(f, path, k).value.path| >= |path|
    requires q != [] && q[0] >= k && FrameAt(f, q).Some?
    requires Precedes(q, ChildIssue(f, path, k).value.path[|path|..])
    ensures NodeFault(FrameAt(f, q).value, path + q).None?
    decreases f, 0, |f.calls| - k
  {
    hide NodeFault, Classify, FrameIssue;
    var here := FrameIssue(f.calls[k], path + [k]);
    assert path + [q[0]] + q[1..] == path + q;
    if here.Some? {
      IssueIsLocated(f.calls[k], path + [k]);
      var found := here.value.path;
      assert found[|path|] == found[..|path| + 1][|path|] == k;
      assert found[|path|..][1..] == found[|path| + 1..];
      IssueIsFirst(f.calls[k], path + [k], q[1..]);
    } else if q[0] == k {
      CleanThroughout(f.calls[k], path + [k], q[1..]);
    } else {
      ChildIssueIsFirst(f, path, k + 1, q);
    }
  }

  /** A tree by the kinds of its nodes. */
  datatype Tree = Tree(kind: TraceKind, children: seq<Tree>)

  function TreeOf(f: Frame): Tree
    requires AllKept(f)
    decreases f, 1, 0
  {
    Tree(KindOf(f).value, ChildTrees(f, 0))
  }

  function ChildTrees(f: Frame, k: nat): seq<Tree>
    requires k <= |f.calls| && AllKept(f)
    decreases f, 0, |f.calls| - k
  {
    if k == |f.calls| then [] else [TreeOf(f.calls[k])] + ChildTrees(f, k + 1)
  }

  /** Read a tree off the front of a list of traces, by their subtrace counts alone. */
  function Rebuild(traces: seq<Trace>): (r: Option<(Tree, seq<Trace>)>)
    ensures r.Some? ==> |r.value.1| < |traces|
    decreases |traces|, 0, 0
  {
    if traces == [] then None
    else
      var children := RebuildAll(traces[1..], traces[0].subtraces);
      if children.None? then None
      else Some((Tree(traces[0].kind, children.value.0), children.value.1))
  }

  function RebuildAll(traces: seq<Trace>, n: nat): (r: Option<(seq<Tree>, seq<Trace>)>)
    ensures r.Some? ==> |r.value.1| <= |traces|
    decreases |traces|, 1, n
  {
    if n == 0 then Some(([], traces))
    else
      var first := Rebuild(traces);
      if first.None? then None
      else
        var others := RebuildAll(first.value.1, n - 1);
        if others.None? then None else Some(([first.value.0] + others.value.0, others.value.1))
  }

  /** All visits of a kept tree are kept. */
  lemma {:induction false} VisitsAreKept(f: Frame, base: Path)
    requires AllKept(f)
    ensures forall i :: 0 <= i < |Traverse(f, base)| ==> TraceOf(Traverse(f, base)[i]).Some?
    decreases f, 1, 0
  {
    ChildVisitsAreKept(f, base, 0);
  }

  lemma {:induction false} ChildVisitsAreKept(f: Frame, base: Path, k: nat)
    requires AllKept(f) && k <= |f.calls|
    ensures forall i :: 0 <= i < |TraverseFrom(f, base, k)| ==> TraceOf(TraverseFrom(f, base, k)[i]).Some?
    decreases f, 0, |f.calls| - k
  {
    if k < |f.calls| {
      VisitsAreKept(f.calls[k], base + [k]);
      ChildVisitsAreKept(f, base, k + 1);
    }
  }

  lemma {:induction false} KeptConcat(a: seq<Visit>, b: seq<Visit>)
    ensures Kept(a + b) == Kept(a) + Kept(b)
  {
    hide TraceOf;
    if b == [] {
      assert a + b == a;
    } else {
      KeptConcat(a, b[..|b| - 1]);
      ConcatFront(a, b);
    }
  }

  lemma KeptAlone(v: Visit)
    ensures Kept([v]) == KeptOne(v)
  {
    hide TraceOf;
    assert [v][..0] == [];
    assert Kept([]) + KeptOne(v) == KeptOne(v);
  }

  lemma KeptTraverse(f: Frame, base: Path)
    requires TraceOf(Visit(base, |f.calls|, f)).Some?
    ensures Kept(Traverse(f, base)) ==
      [TraceOf(Visit(base, |f.calls|, f)).value] + Kept(TraverseFrom(f, base, 0))
  {
    hide TraceOf, KindOf, TraverseFrom;
    var own := Visit(base, |f.calls|, f);
    KeptConcat([own], TraverseFrom(f, base, 0));
    KeptAlone(own);
  }

  lemma RebuildCons(t: Trace, more: seq<Trace>, children: seq<Tree>, rest: seq<Trace>)
    requires RebuildAll(more, t.subtraces) == Some((children, rest))
    ensures Rebuild([t] + more) == Some((Tree(t.kind, children), rest))
  {
    assert ([t] + more)[1..] == more;
  }

  lemma RebuildAllCons(here: seq<Trace>, later: seq<Trace>, rest: seq<Trace>, n: nat, first: Tree, others: seq<Tree>)
    requires Rebuild(here + (later + rest)) == Some((first, later + rest))
    requires RebuildAll(later + rest, n) == Some((others, rest))
    ensures RebuildAll(here + later + rest, n + 1) == Some(([first] + others, rest))
  {
    Associates(here, later, rest);
  }

  /** The traces that flattening a frame leaves. */
  function Flattened(f: Frame, base: Path): seq<Trace> {
    Kept(Traverse(f, base))
  }

  /** The traces that flattening the calls of a frame from the k-th on leaves. */
  function FlattenedFrom(f: Frame, base: Path, k: nat): seq<Trace>
    requires k <= |f.calls|
  {
    Kept(TraverseFrom(f, base, k))
  }

  predicate ReadsBack(f: Frame, traces: seq<Trace>, rest: seq<Trace>)
    requires AllKept(f)
  {
    Rebuild(traces + rest) == Some((TreeOf(f), rest))
  }

  predicate ReadsBackFrom(f: Frame, k: nat, traces: seq<Trace>, rest: seq<Trace>)
    requires AllKept(f) && k <= |f.calls|
  {
    RebuildAll(traces + rest, |f.calls| - k) == Some((ChildTrees(f, k), rest))
  }

  /** Rebuilding undoes flattening, whatever traces follow. */
  lemma {:induction false} RebuildTraverse(f: Frame, base: Path, rest: seq<Trace>)
    requires AllKept(f)
    ensures ReadsBack(f, Flattened(f, base), rest)
    decreases f, 1, 0
  {
    RebuildChildren(f, base, 0, rest);
    RebuildRoot(f, base, rest);
  }

  lemma RebuildRoot(f: Frame, base: Path, rest: seq<Trace>)
    requires AllKept(f) && ReadsBackFrom(f, 0, FlattenedFrom(f, base, 0), rest)
    ensures ReadsBack(f, Flattened(f, base), rest)
  {
    var own, below := TraceOf(Visit(base, |f.calls|, f)).value, FlattenedFrom(f, base, 0);
    KeptTraverse(f, base);
    RebuildCons(own, below + rest, ChildTrees(f, 0), rest);
    Associates([own], below, rest);
  }

  lemma {:induction false} RebuildChildren(f: Frame, base: Path, k: nat, rest: seq<Trace>)
    requires AllKept(f) && k <= |f.calls|
    ensures ReadsBackFrom(f, k, FlattenedFrom(f, base, k), rest)
    decreases f, 0, |f.calls| - k
  {
    hide ReadsBack, ReadsBackFrom, Flattened, FlattenedFrom;
    if k == |f.calls| {
      RebuildNone(f, base, rest);
    } else {
      var later := FlattenedFrom(f, base, k + 1);
      RebuildTraverse(f.calls[k], base + [k], later + rest);
      RebuildChildren(f, base, k + 1, rest);
      KeptTraverseFrom(f, base, k);
      RebuildChild(f, k, Flattened(f.calls[k], base + [k]), later, rest);
    }
  }

  lemma RebuildNone(f: Frame, base: Path, rest: seq<Trace>)
    requires AllKept(f)
    ensures ReadsBackFrom(f, |f.calls|, FlattenedFrom(f, base, |f.calls|), rest)
  {
    assert FlattenedFrom(f, base, |f.calls|) + rest == rest;
  }

  lemma RebuildChild(f: Frame, k: nat, here: seq<Trace>, later: seq<Trace>, rest: seq<Trace>)
    requires k < |f.calls| && AllKept(f)
    requires ReadsBack(f.calls[k], here, later + rest) && ReadsBackFrom(f, k + 1, later, rest)
    ensures ReadsBackFrom(f, k, here + later, rest)
  {
    hide Rebuild, RebuildAll, TreeOf;
    RebuildAllCons(here, later, rest, |f.calls| - (k + 1), TreeOf(f.calls[k]), ChildTrees(f, k + 1));
  }

  lemma KeptTraverseFrom(f: Frame, base: Path, k: nat)
    requires k < |f.calls|
    ensures FlattenedFrom(f, base, k) == Flattened(f.calls[k], base + [k]) + FlattenedFrom(f, base, k + 1)
  {
    KeptConcat(Traverse(f.calls[k], base + [k]), TraverseFrom(f, base, k + 1));
  }

  /** What passes the gate is flattened without loss: one trace per frame, in preorder, each at the
      address of its frame with that frame's number of children; every frame of the tree is among
      them; and the tree of kinds is read back from the traces alone. */
  lemma GateMakesFlatteningLossless(root: Frame)
    requires FrameIssue(root, []).None? && !EmptyTrace(root)
    ensures var visits, traces := Traverse(root, []), MappedTraces(root);
      && |traces| == |visits|
      && InPreorder(visits)
      && (forall i :: 0 <= i < |traces| ==> TraceOf(visits[i]) == Some(traces[i]) && VisitOf(root, [], visits[i]))
    ensures forall path :: FrameAt(root, path).Some? ==>
      exists i :: 0 <= i < |MappedTraces(root)| && MappedTraces(root)[i].address == path
    ensures AllKept(root) && Rebuild(MappedTraces(root)) == Some((TreeOf(root), []))
  {
    GateIsExact(root);
    WellShapedIsKept(root);
    VisitsAreKept(root, []);
    KeptAll(Traverse(root, []));
    VisitsInPreorder(root, []);
    VisitsAreLocated(root, []);
    RebuildTraverse(root, [], []);
    assert MappedTraces(root) + [] == MappedTraces(root);
    forall path | FrameAt(root, path).Some?
      ensures exists i :: 0 <= i < |MappedTraces(root)| && MappedTraces(root)[i].address == path
    {
      EveryPathIsVisited(root, [], path);
      var i :| 0 <= i < |Traverse(root, [])| && Traverse(root, [])[i].address == [] + path;
      assert [] + path == path;
      assert TraceOf(Traverse(root, [])[i]) == Some(MappedTraces(root)[i]);
    }
  }

  /** Without the gate, exactly the trees with an unkept frame lose traces. */
  lemma FlatteningIsLosslessIff(root: Frame)
    requires !EmptyTrace(root)
    ensures |MappedTraces(root)| == |Traverse(root, [])| <==> AllKept(root)
  {
    if AllKept(root) {
      VisitsAreKept(root, []);
      KeptAll(Traverse(root, []));
    } else {
      var i := UnkeptVisit(root, []);
      KeptFewer(Traverse(root, []), i);
    }
  }

  lemma {:induction false} UnkeptVisit(f: Frame, base: Path) returns (i: nat)
    requires !AllKept(f)
    ensures i < |Traverse(f, base)| && TraceOf(Traverse(f, base)[i]).None?
    decreases f, 1, 0
  {
    if TraceOf(Visit([], 0, f)).None? {
      i := 0;
    } else {
      var j := UnkeptChildVisit(f, base, 0);
      i := j + 1;
    }
  }

  lemma {:induction false} UnkeptChildVisit(f: Frame, base: Path, k: nat) returns (i: nat)
    requires k <= |f.calls| && exists m :: k <= m < |f.calls| && !AllKept(f.calls[m])
    ensures i < |TraverseFrom(f, base, k)| && TraceOf(TraverseFrom(f, base, k)[i]).None?
    decreases f, 0, |f.calls| - k
  {
    hide TraceOf;
    if !AllKept(f.calls[k]) {
      i := UnkeptVisit(f.calls[k], base + [k]);
    } else {
      var j := UnkeptChildVisit(f, base, k + 1);
      i := |Traverse(f.calls[k], base + [k])| + j;
    }
  }
}
