/** The one panel size on the air (PanelState and its functions in src/app/SenderApp.cpp): a claim that
    any number of senders share. */
module Panel {
  import opened Wrappers

  datatype Size = Size(width: nat, height: nat)

  const NO_SIZE := Size(0, 0)

  // ----- NormalizePanelSize -----

  const MIN_AXIS := 320
  const MAX_AXIS := 8192
  const MAX_PIXELS := 8192 * 4096

  predicate IsPanel(rawWidth: int, rawHeight: int) {
    320 <= rawWidth <= 8192 && 320 <= rawHeight <= 8192 && rawWidth * rawHeight <= 33554432
  }

  /** The panel of a size that a receiver reports: its axes in their order, cut to even. */
  function PanelOf(rawWidth: int, rawHeight: int): Option<Size> {
    if IsPanel(rawWidth, rawHeight) then Some(Size(rawWidth / 2 * 2, rawHeight / 2 * 2)) else None
  }

  /** Accepted exactly within the limits, and then cut to even by at most one pixel an axis. */
  method NormalizePanelSize(rawWidth: int, rawHeight: int) returns (r: Option<Size>)
    ensures r.Some? <==> IsPanel(rawWidth, rawHeight)
    ensures r.Some? ==>
              && r.value.width % 2 == 0 && rawWidth - 1 <= r.value.width <= rawWidth
              && r.value.height % 2 == 0 && rawHeight - 1 <= r.value.height <= rawHeight
              && r.value != NO_SIZE
    ensures r == PanelOf(rawWidth, rawHeight)
  {
    if rawWidth < MIN_AXIS || rawWidth > MAX_AXIS || rawHeight < MIN_AXIS || rawHeight > MAX_AXIS {
      return None;
    }
    if rawWidth * rawHeight > MAX_PIXELS {
      return None;
    }
    var width, height := rawWidth - rawWidth % 2, rawHeight - rawHeight % 2;
    if width >= 2 && height >= 2 {
      return Some(Size(width, height));
    }
    return None;
  }

  // ----- The claim -----

  datatype Claim = Claim(size: Size, holders: nat)

  predicate MayJoin(c: Claim, size: Size) {
    c.holders == 0 || c.size == size
  }

  class PanelState {
    var width: nat
    var height: nat
    var holders: int

    constructor ()
      ensures Valid() && Now() == Claim(NO_SIZE, 0)
    {
      width, height, holders := 0, 0, 0;
    }

    predicate Valid()
      reads this
    {
      holders >= 0
    }

    function Now(): Claim
      requires Valid()
      reads this
    {
      Claim(Size(width, height), holders)
    }

    /** Refused exactly when another size is held, and then that size is reported. */
    method AcquirePanel(size: Size) returns (held: bool, active: Size)
      requires Valid()
      modifies this
      ensures Valid() && held == MayJoin(old(Now()), size)
      ensures held ==> Now() == Joined(old(Now()), size)
      ensures !held ==> Now() == old(Now()) && active == Now().size && active != size && Now().holders > 0
    {
      active := NO_SIZE;
      if holders > 0 && (width != size.width || height != size.height) {
        return false, Size(width, height);
      }
      width := size.width;
      height := size.height;
      holders := holders + 1;
      held := true;
    }

    method ReleasePanel()
      requires Valid()
      modifies this
      ensures Valid() && Now() == Released(old(Now()))
    {
      holders := holders - 1;
      if holders <= 0 {
        holders := 0;
        width := 0;
        height := 0;
      }
    }

    /** Only a sole holder may change the size. */
    method RetunePanel(size: Size) returns (ok: bool)
      requires Valid()
      modifies this
      ensures Valid() && ok == (old(Now()).holders <= 1) && Now() == Retuned(old(Now()), size)
    {
      if holders > 1 {
        return false;
      }
      width := size.width;
      height := size.height;
      ok := true;
    }
  }

  function Joined(c: Claim, size: Size): Claim {
    Claim(size, c.holders + 1)
  }

  function Retuned(c: Claim, size: Size): Claim {
    if c.holders > 1 then c else c.(size := size)
  }

  function Released(c: Claim): Claim {
    if c.holders <= 1 then Claim(NO_SIZE, 0) else Claim(c.size, c.holders - 1)
  }

  // ----- Any number of senders -----

  /** For each sender the size it last asked the panel for, while its PanelHolder holds the claim. */
  datatype State = State(claim: Claim, asked: seq<Option<Size>>)

  datatype Action =
    | Acquire(i: nat, size: Size)
    | Release(i: nat)
    | Rotate(i: nat, size: Size)   // RetunePanel; a refusal is only logged, and the sender rotates anyway

  /** A rotation to another size while others hold the panel. */
  predicate Refused(s: State, a: Action) {
    a.Rotate? && s.claim.holders > 1 && a.size != s.claim.size
  }

  predicate Step(s: State, a: Action, s': State) {
    match a
    case Acquire(i, size) =>
      && i < |s.asked| && s.asked[i].None? && size != NO_SIZE
      && s' == if MayJoin(s.claim, size) then State(Joined(s.claim, size), s.asked[i := Some(size)]) else s
    case Release(i) =>
      && i < |s.asked| && s.asked[i].Some?
      && s' == State(Released(s.claim), s.asked[i := None])
    case Rotate(i, size) =>
      && i < |s.asked| && s.asked[i].Some? && size != NO_SIZE
      && s' == State(Retuned(s.claim, size), s.asked[i := Some(size)])
  }

  function Holders(asked: seq<Option<Size>>): nat {
    if asked == [] then 0
    else Holders(asked[..|asked| - 1]) + if asked[|asked| - 1].Some? then 1 else 0
  }

  lemma {:induction false} HoldersUpdated(asked: seq<Option<Size>>, i: nat, x: Option<Size>)
    requires i < |asked|
    ensures Holders(asked[i := x]) ==
            Holders(asked) - (if asked[i].Some? then 1 else 0) + (if x.Some? then 1 else 0)
  {
    var n := |asked| - 1;
    if i < n {
      HoldersUpdated(asked[..n], i, x);
      assert asked[i := x][..n] == asked[..n][i := x];
    } else {
      assert asked[i := x][..n] == asked[..n];
    }
  }

  lemma {:induction false} HolderCounts(asked: seq<Option<Size>>, i: nat)
    requires i < |asked| && asked[i].Some?
    ensures Holders(asked) >= 1
    ensures Holders(asked) == 1 ==> forall j :: 0 <= j < |asked| && asked[j].Some? ==> j == i
  {
    HoldersUpdated(asked, i, None);
    if Holders(asked) == 1 {
      NoHolders(asked[i := None]);
      assert forall j :: 0 <= j < |asked| && j != i ==> asked[i := None][j] == asked[j];
    }
  }

  lemma {:induction false} NoHolders(asked: seq<Option<Size>>)
    requires Holders(asked) == 0
    ensures forall j :: 0 <= j < |asked| ==> asked[j].None?
  {
    if asked != [] { NoHolders(asked[..|asked| - 1]); }
  }

  /** The count is the number of holders, and there is a size exactly while there are holders. */
  predicate Counted(s: State) {
    s.claim.holders == Holders(s.asked) && (s.claim.size == NO_SIZE <==> s.claim.holders == 0)
  }

  /** Every holder's size is the one on the air. */
  predicate Agreed(s: State) {
    forall i :: 0 <= i < |s.asked| && s.asked[i].Some? ==> s.asked[i].value == s.claim.size
  }

  predicate Init(s: State) {
    s.claim == Claim(NO_SIZE, 0) && forall i :: 0 <= i < |s.asked| ==> s.asked[i].None?
  }

  lemma {:induction false} InitCounted(asked: seq<Option<Size>>)
    requires forall i :: 0 <= i < |asked| ==> asked[i].None?
    ensures Holders(asked) == 0
  {
    if asked != [] { InitCounted(asked[..|asked| - 1]); }
  }

  lemma StepKeepsCounted(s: State, a: Action, s': State)
    requires Counted(s) && Step(s, a, s')
    ensures Counted(s')
  {
    var x := match a case Acquire(_, size) => Some(size) case Release(_) => None case Rotate(_, size) => Some(size);
    HoldersUpdated(s.asked, a.i, x);
    if !a.Acquire? { HolderCounts(s.asked, a.i); }
  }

  /** A step keeps the agreement exactly when it is not a refused rotation. */
  lemma StepKeepsAgreedIff(s: State, a: Action, s': State)
    requires Counted(s) && Agreed(s) && Step(s, a, s')
    ensures Agreed(s') <==> !Refused(s, a)
  {
    if a.Acquire? {
      if s.claim.holders == 0 { NoHolders(s.asked); }
    } else {
      HolderCounts(s.asked, a.i);
      assert s.asked[a.i].value == s.claim.size;
      if Refused(s, a) { assert s'.asked[a.i] == Some(a.size); }
    }
  }

  datatype Run = Run(states: seq<State>, actions: seq<Action>)

  predicate IsRun(r: Run) {
    && |r.states| == |r.actions| + 1 && Init(r.states[0])
    && forall k :: 0 <= k < |r.actions| ==> Step(r.states[k], r.actions[k], r.states[k + 1])
  }

  /** Any interleaving of any number of senders: the claim is counted right, and all holders have the
      size on the air as long as no rotation was refused. */
  lemma {:induction false} ClaimIsShared(r: Run, k: nat)
    requires IsRun(r) && k < |r.states|
    ensures Counted(r.states[k])
    ensures (forall j :: 0 <= j < k ==> !Refused(r.states[j], r.actions[j])) ==> Agreed(r.states[k])
    decreases k
  {
    hide Counted, Agreed, Step, Refused;
    if k == 0 {
      StartsShared(r.states[0]);
    } else {
      ClaimIsShared(r, k - 1);
      var s, a, s' := r.states[k - 1], r.actions[k - 1], r.states[k];
      assert Step(s, a, s');
      StepKeepsCounted(s, a, s');
      if Agreed(s) { StepKeepsAgreedIff(s, a, s'); }
    }
  }

  /** Two receivers of one size; the second is turned, which is refused: from then on it has another size
      than the one on the air. */
  lemma RefusedRotationParts()
    ensures var tall, wide := Size(768, 1024), Size(1024, 768);
            var s0 := State(Claim(NO_SIZE, 0), [None, None]);
            var s1 := State(Claim(tall, 1), [Some(tall), None]);
            var s2 := State(Claim(tall, 2), [Some(tall), Some(tall)]);
            var s3 := State(Claim(tall, 2), [Some(tall), Some(wide)]);
            var r := Run([s0, s1, s2, s3], [Acquire(0, tall), Acquire(1, tall), Rotate(1, wide)]);
            IsRun(r) && Refused(s2, r.actions[2]) && Agreed(s2) && !Agreed(s3)
  {
    var s3 := State(Claim(Size(768, 1024), 2), [Some(Size(768, 1024)), Some(Size(1024, 768))]);
    assert s3.asked[1].Some?;
  }

  lemma StartsShared(s: State)
    requires Init(s)
    ensures Counted(s) && Agreed(s)
  {
    InitCounted(s.asked);
  }

  /** While the holders agree, a sender gets in exactly when everybody on the air has its size; if it is
      refused, the size it is told is everybody's. */
  lemma JoinsItsOwnSize(s: State, size: Size)
    requires Counted(s) && Agreed(s)
    ensures MayJoin(s.claim, size) <==>
            forall i :: 0 <= i < |s.asked| && s.asked[i].Some? ==> s.asked[i].value == size
  {
    if s.claim.holders == 0 {
      NoHolders(s.asked);
    } else if forall i :: 0 <= i < |s.asked| && s.asked[i].Some? ==> s.asked[i].value == size {
      if forall i :: 0 <= i < |s.asked| ==> s.asked[i].None? {
        InitCounted(s.asked);
      }
    }
  }
}
