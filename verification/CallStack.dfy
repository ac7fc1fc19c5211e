/** Who made each call: a tree checked against its transaction at the root and, below it, against the
    account on top of the stack. */
module CallStack {
  import opened Sequences
  import opened Types
  import opened DebugTree

  datatype Transaction = Transaction(from: string, to: Option<string>)

  datatype StackFault =
    | WrongSender | NotACreation | NotACall | WrongTarget
    | WrongExecutor(path: Path) | WithoutBeneficiary(path: Path)

  predicate IsMappable(f: Frame) {
    KindOf(f).Some?
  }

  /** The account on top of the stack while `f` runs: a frame that keeps its caller's context runs
      as its caller. */
  function Executor(f: Frame): Option<string> {
    if Classify(f.frameType) in {CallCode, DelegateCall} then Some(f.from) else f.to
  }

  function ChildFault(parent: Frame, child: Frame, path: Path): Option<StackFault> {
    if Executor(parent).Some? && !EqIgnoreAsciiCase(child.from, Executor(parent).value) then Some(WrongExecutor(path))
    else if Classify(child.frameType) == Selfdestruct && child.to.None? then Some(WithoutBeneficiary(path))
    else None
  }

  /** The first fault among the calls from the k-th on and what lies below them, in preorder. */
  function SubcallFault(f: Frame, path: Path, k: nat): Option<StackFault>
    requires k <= |f.calls|
    decreases f, |f.calls| - k
  {
    if k == |f.calls| then None
    else
      var own := ChildFault(f, f.calls[k], path + [k]);
      var below := if own.None? && IsMappable(f.calls[k]) then SubcallFault(f.calls[k], path + [k], 0) else own;
      if below.Some? then below else SubcallFault(f, path, k + 1)
  }

  /** Check a frame's calls, pushing and popping the path buffer on the way down and up. */
  method CheckSubcalls(parent: Frame, path: Path) returns (fault: Option<StackFault>, restored: Path)
    ensures fault == SubcallFault(parent, path, 0) && restored == path
    decreases parent
  {
    restored := path;
    for k := 0 to |parent.calls|
      invariant restored == path && SubcallFault(parent, path, 0) == SubcallFault(parent, path, k)
    {
      var child := parent.calls[k];
      restored := restored + [k];
      SnocFront(path, k);
      fault := ChildFault(parent, child, restored);
      if fault.Some? {
        restored := restored[..|restored| - 1];
        return;
      }
      if IsMappable(child) {
        fault, restored := CheckSubcalls(child, restored);
      }
      restored := restored[..|restored| - 1];
      if fault.Some? {
        return;
      }
    }
    fault := None;
  }

  /** What the root must have in common with its transaction. */
  function RootFault(tx: Transaction, root: Frame): Option<StackFault> {
    var kind := Classify(root.frameType);
    if !EqIgnoreAsciiCase(root.from, tx.from) then Some(WrongSender)
    else if tx.to.None? then (if kind in {Create, Create2} then None else Some(NotACreation))
    else if kind !in {Call, Invalid} then Some(NotACall)
    else if root.to.None? || !EqIgnoreAsciiCase(root.to.value, tx.to.value) then Some(WrongTarget)
    else None
  }

  /** A root agrees with its transaction when both have one sender, and it creates exactly where the
      transaction names no target, and otherwise calls that target. */
  lemma RootFaultMeans(tx: Transaction, root: Frame)
    ensures RootFault(tx, root).None? <==>
      && EqIgnoreAsciiCase(root.from, tx.from)
      && (tx.to.None? ==> IsCreation(root))
      && (tx.to.Some? ==>
            && (EqIgnoreAsciiCase(root.frameType, "CALL") || EqIgnoreAsciiCase(root.frameType, "INVALID"))
            && root.to.Some? && EqIgnoreAsciiCase(root.to.value, tx.to.value))
  {
    hide EqIgnoreAsciiCase;
    ClassifiedByName(root.frameType);
  }

  method CheckCallFrameTree(tx: Transaction, root: Frame) returns (fault: Option<StackFault>)
    ensures Classify(root.frameType) == Stop ==> fault == None
    ensures Classify(root.frameType) != Stop ==>
      fault == if RootFault(tx, root).Some? then RootFault(tx, root) else SubcallFault(root, [], 0)
  {
    if Classify(root.frameType) == Stop {
      return None;
    }
    fault := RootFault(tx, root);
    if fault.None? {
      var path;
      fault, path := CheckSubcalls(root, []);
    }
  }

  // ----- what a clean check means ----------------------------------------------------------

  /** The frame runs another account's code as the account that called it. */
  predicate BorrowsCode(f: Frame) {
    EqIgnoreAsciiCase(f.frameType, "DELEGATECALL") || EqIgnoreAsciiCase(f.frameType, "CALLCODE")
  }

  /** The child says it was called from the account its parent runs as: the parent's own caller if it
      borrows code, and otherwise the account the parent calls, where it names one. And a
      selfdestruct names who inherits. */
  predicate CalledBy(parent: Frame, child: Frame) {
    && (BorrowsCode(parent) ==> EqIgnoreAsciiCase(child.from, parent.from))
    && (!BorrowsCode(parent) && parent.to.Some? ==> EqIgnoreAsciiCase(child.from, parent.to.value))
    && (EqIgnoreAsciiCase(child.frameType, "SELFDESTRUCT") ==> child.to.Some?)
  }

  /** The walk's test of one call is that. */
  lemma ChildFaultMeans(parent: Frame, child: Frame, path: Path)
    ensures ChildFault(parent, child, path).None? <==> CalledBy(parent, child)
    ensures ChildFault(parent, child, path) == Some(WithoutBeneficiary(path)) ==>
      EqIgnoreAsciiCase(child.frameType, "SELFDESTRUCT") && child.to.None?
  {
    hide EqIgnoreAsciiCase;
    ClassifiedByName(parent.frameType);
    ClassifiedByName(child.frameType);
  }

  /** At every frame of the tree but the root. */
  ghost predicate StackAgrees(root: Frame) {
    forall path :: path != [] && FrameAt(root, path).Some? ==> CalledAt(root, path)
  }

  /** The frame at `path` was called by the frame above it. */
  predicate CalledAt(root: Frame, path: Path)
    requires path != [] && FrameAt(root, path).Some?
  {
    var above := FrameAt(root, path[..|path| - 1]);
    above.Some? && CalledBy(above.value, FrameAt(root, path).value)
  }

  /** The calls from the k-th on are as they should be, and so is what lies below them. */
  predicate Clean(f: Frame, k: nat)
    requires k <= |f.calls|
  {
    forall i :: k <= i < |f.calls| ==> CalledBy(f, f.calls[i]) && Clean(f.calls[i], 0)
  }

  lemma {:induction false} NoFaultIsClean(f: Frame, path: Path, k: nat)
    requires WellShaped(f) && k <= |f.calls|
    ensures SubcallFault(f, path, k).None? <==> Clean(f, k)
    decreases f, |f.calls| - k
  {
    hide EqIgnoreAsciiCase, OwnFault, IsAddress, Executor, ChildFault, CalledBy;
    if k < |f.calls| {
      ChildFaultMeans(f, f.calls[k], path + [k]);
      NoFaultIsClean(f.calls[k], path + [k], 0);
      NoFaultIsClean(f, path, k + 1);
    }
  }

  lemma FrameStep(f: Frame, path: Path)
    requires |path| > 1 && path[0] < |f.calls|
    ensures FrameAt(f, path) == FrameAt(f.calls[path[0]], path[1..])
    ensures FrameAt(f, path[..|path| - 1]) == FrameAt(f.calls[path[0]], path[1..][..|path| - 2])
  {
    assert path[..|path| - 1][1..] == path[1..][..|path| - 2];
  }

  lemma {:induction false} CleanAlong(f: Frame, path: Path)
    requires Clean(f, 0) && path != [] && FrameAt(f, path).Some?
    ensures CalledAt(f, path)
    decreases path
  {
    hide CalledBy;
    if |path| == 1 {
      assert path[..0] == [] && path[1..] == [];
      assert FrameAt(f, path) == FrameAt(f.calls[path[0]], []);
    } else {
      CleanAlong(f.calls[path[0]], path[1..]);
      FrameStep(f, path);
    }
  }

  /** A tree that is not clean has a frame that shows it. */
  lemma {:induction false} UncleanAt(f: Frame, k: nat) returns (path: Path)
    requires k <= |f.calls| && !Clean(f, k)
    ensures path != [] && FrameAt(f, path).Some? && !CalledAt(f, path)
    decreases f, |f.calls| - k
  {
    hide CalledBy;
    if !CalledBy(f, f.calls[k]) {
      path := [k];
      assert path[..0] == [] && path[1..] == [];
      assert FrameAt(f, path) == FrameAt(f.calls[k], []);
    } else if !Clean(f.calls[k], 0) {
      var below := UncleanAt(f.calls[k], 0);
      path := [k] + below;
      assert path[1..] == below;
      FrameStep(f, path);
    } else {
      path := UncleanAt(f, k + 1);
    }
  }

  /** On what the structural gate passes, the walk finds no fault exactly when every call in the
      tree was made by the account then on top of the stack. */
  lemma NoFaultIffStackAgrees(root: Frame)
    requires WellShaped(root)
    ensures SubcallFault(root, [], 0).None? <==> StackAgrees(root)
  {
    NoFaultIsClean(root, [], 0);
    if Clean(root, 0) {
      forall path | path != [] && FrameAt(root, path).Some?
        ensures CalledAt(root, path)
      {
        CleanAlong(root, path);
      }
    } else {
      var path := UncleanAt(root, 0);
    }
  }

  /** Where a fault below the root was found. */
  function PlaceOf(fault: StackFault): Option<Path> {
    match fault
    case WrongExecutor(path) => Some(path)
    case WithoutBeneficiary(path) => Some(path)
    case _ => None
  }

  /** The fault found names, by its path, a frame that was not called as it should be. */
  lemma {:induction false} FaultIsLocated(f: Frame, path: Path, k: nat)
    requires k <= |f.calls| && SubcallFault(f, path, k).Some?
    ensures var place := PlaceOf(SubcallFault(f, path, k).value);
      && place.Some? && |place.value| > |path| && place.value[..|path|] == path
      && FrameAt(f, place.value[|path|..]).Some? && !CalledAt(f, place.value[|path|..])
    decreases f, |f.calls| - k
  {
    hide CalledBy, Executor, Classify;
    var child, here := f.calls[k], path + [k];
    ChildFaultMeans(f, child, here);
    var own := ChildFault(f, child, here);
    if own.Some? {
      assert here[|path|..] == [k] && [k][..0] == [] && [k][1..] == [];
      assert FrameAt(f, [k]) == FrameAt(child, []);
    } else if IsMappable(child) && SubcallFault(child, here, 0).Some? {
      FaultIsLocated(child, here, 0);
      var place := PlaceOf(SubcallFault(child, here, 0).value).value;
      var below := place[|path|..];
      assert place[..|path|] == place[..|path| + 1][..|path|] == path;
      assert below[0] == place[..|path| + 1][|path|] == k && below[1..] == place[|here|..];
      FrameStep(f, below);
    } else {
      FaultIsLocated(f, path, k + 1);
    }
  }
}
