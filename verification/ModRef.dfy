/** The combination of several alias analyses: answers about calls are met over all analyses, refined
    by what the callee's behavior and its arguments allow, and never miss a conflict. */
module ModRef {
  import opened AliasResults

  type Loc = nat   // a memory location
  type Call = nat  // a call site
  type Addr = nat  // an address in memory, or memory that is inaccessible to the program

  /** Bits of an answer: may modify, may reference, and the bit that is clear if only "must" was found. */
  datatype ModRefInfo = ModRefInfo(mod: bool, ref: bool, vague: bool)
  {
    predicate IsNoModRef() { !mod && !ref }

    function Intersect(other: ModRefInfo): ModRefInfo {
      ModRefInfo(mod && other.mod, ref && other.ref, vague && other.vague)
    }

    function Union(other: ModRefInfo): ModRefInfo {
      ModRefInfo(mod || other.mod, ref || other.ref, vague || other.vague)
    }

    /** The same answer but for the "must" bit. */
    predicate Agrees(mod: bool, ref: bool) { this.mod == mod && this.ref == ref }
  }

  const NoModRef := ModRefInfo(false, false, true)
  const Ref := ModRefInfo(false, true, true)
  const Mod := ModRefInfo(true, false, true)
  const ModAndRef := ModRefInfo(true, true, true)

  /** Bits of a behavior: where memory is accessed, and how. */
  datatype Behavior = Behavior(other: bool, inaccessible: bool, arguments: bool, mod: bool, ref: bool)
  {
    function Intersect(b: Behavior): Behavior {
      Behavior(other && b.other, inaccessible && b.inaccessible, arguments && b.arguments, mod && b.mod, ref && b.ref)
    }

    predicate OnlyReadsMemory() { !mod }

    predicate DoesNotReadMemory() { !ref }

    predicate OnlyAccessesArgPointees() { !other && !inaccessible }

    predicate DoesAccessArgPointees() { (mod || ref) && arguments }

    predicate OnlyAccessesInaccessibleOrArgMem() { !other }
  }

  const DoesNotAccessMemory := Behavior(false, false, false, false, false)
  const OnlyAccessesInaccessibleMem := Behavior(false, true, false, true, true)
  const UnknownBehavior := Behavior(true, true, true, true, true)

  /** The answers of one analysis. */
  datatype Analysis = Analysis(
    alias: (Loc, Loc) -> AliasResult,
    pointsToConstantMemory: Loc -> bool,
    argModRef: (Call, nat) -> ModRefInfo,
    callLoc: (Call, Loc) -> ModRefInfo,
    callCall: (Call, Call) -> ModRefInfo,
    behavior: Call -> Behavior)

  /** The arguments of calls. */
  datatype Arguments = Arguments(count: Call -> nat, isPointer: (Call, nat) -> bool, location: (Call, nat) -> Loc)

  // ----- the simple form: nothing is left early -----

  function FirstDefinite(aas: seq<Analysis>, a: Loc, b: Loc): AliasResult {
    if aas == [] then MayAlias
    else if aas[0].alias(a, b) != MayAlias then aas[0].alias(a, b)
    else FirstDefinite(aas[1..], a, b)
  }

  function MeetBehavior(aas: seq<Analysis>, c: Call): Behavior {
    if aas == [] then UnknownBehavior
    else MeetBehavior(aas[..|aas| - 1], c).Intersect(aas[|aas| - 1].behavior(c))
  }

  /** All analyses admit that argument j of c is modified (or referenced). */
  predicate ArgMod(aas: seq<Analysis>, c: Call, j: nat) { forall k :: 0 <= k < |aas| ==> aas[k].argModRef(c, j).mod }

  predicate ArgRef(aas: seq<Analysis>, c: Call, j: nat) { forall k :: 0 <= k < |aas| ==> aas[k].argModRef(c, j).ref }

  predicate Constant(aas: seq<Analysis>, l: Loc) { exists k :: 0 <= k < |aas| && aas[k].pointsToConstantMemory(l) }

  /** Argument j of c is a pointer that may alias l. */
  predicate Reaches(aas: seq<Analysis>, args: Arguments, c: Call, j: nat, l: Loc) {
    args.isPointer(c, j) && FirstDefinite(aas, args.location(c, j), l) != NoAlias
  }

  /** What can be told of a call from its behavior alone. */
  predicate Silent(b: Behavior) { b == DoesNotAccessMemory || b == OnlyAccessesInaccessibleMem }

  predicate LocMod(aas: seq<Analysis>, args: Arguments, c: Call, l: Loc) {
    var b := MeetBehavior(aas, c);
    && (forall k :: 0 <= k < |aas| ==> aas[k].callLoc(c, l).mod)
    && !Silent(b) && b.mod && !Constant(aas, l)
    && (b.other || (b.arguments && exists j: nat ::
                    j < args.count(c) && Reaches(aas, args, c, j, l) && ArgMod(aas, c, j)))
  }

  predicate LocRef(aas: seq<Analysis>, args: Arguments, c: Call, l: Loc) {
    var b := MeetBehavior(aas, c);
    && (forall k :: 0 <= k < |aas| ==> aas[k].callLoc(c, l).ref)
    && !Silent(b) && (b.ref || !b.mod)
    && (b.other || (b.DoesAccessArgPointees()
                    && exists j: nat :: j < args.count(c) && Reaches(aas, args, c, j, l) && ArgRef(aas, c, j)))
  }

  /** Whether the "must" bit is set: an analysis has found so much, or, if only arguments can reach l, all
      pointer arguments must alias it, and one of them is accessed. */
  predicate LocMust(aas: seq<Analysis>, args: Arguments, c: Call, l: Loc) {
    var b := MeetBehavior(aas, c);
    && ((forall k :: 0 <= k < |aas| ==> aas[k].callLoc(c, l).mod)
        || (forall k :: 0 <= k < |aas| ==> aas[k].callLoc(c, l).ref))
    && !Silent(b)
    && if b.other then exists k :: 0 <= k < |aas| && !aas[k].callLoc(c, l).vague
       else
         && b.DoesAccessArgPointees() && MustReach(aas, args, c, l)
         && exists j: nat ::
              j < args.count(c) && Reaches(aas, args, c, j, l) && (ArgMod(aas, c, j) || ArgRef(aas, c, j))
  }

  predicate MustReach(aas: seq<Analysis>, args: Arguments, c: Call, l: Loc) {
    forall j: nat :: j < args.count(c) && args.isPointer(c, j) ==>
        FirstDefinite(aas, args.location(c, j), l) == MustAlias
  }

  /** Neither call can be ruled out by the behaviors. */
  predicate MayInteract(b1: Behavior, b2: Behavior) {
    b1 != DoesNotAccessMemory && b2 != DoesNotAccessMemory && (b1.mod || b2.mod)
  }

  /** Call c1 may conflict with what c2 does to its argument j. */
  predicate ConflictAt(aas: seq<Analysis>, args: Arguments, c1: Call, c2: Call, j: nat, write: bool) {
    && args.isPointer(c2, j)
    && if write then LocMod(aas, args, c1, args.location(c2, j)) && (ArgMod(aas, c2, j) || ArgRef(aas, c2, j))
       else LocRef(aas, args, c1, args.location(c2, j)) && ArgMod(aas, c2, j)
  }

  /** What c1 does to its argument j may conflict with c2. */
  predicate ConflictFrom(aas: seq<Analysis>, args: Arguments, c1: Call, c2: Call, j: nat) {
    var l := args.location(c1, j);
    && args.isPointer(c1, j)
    && ((ArgMod(aas, c1, j) && (LocMod(aas, args, c2, l) || LocRef(aas, args, c2, l)))
        || (ArgRef(aas, c1, j) && LocMod(aas, args, c2, l)))
  }

  /** There is a conflict with what c2 does to its first n arguments. */
  predicate SomeAt(aas: seq<Analysis>, args: Arguments, c1: Call, c2: Call, n: nat, write: bool) {
    exists j: nat :: j < n && ConflictAt(aas, args, c1, c2, j, write)
  }

  /** There is a conflict with what c1 does to its first n arguments. */
  predicate SomeFrom(aas: seq<Analysis>, args: Arguments, c1: Call, c2: Call, n: nat, write: bool) {
    exists j: nat ::
        j < n && ConflictFrom(aas, args, c1, c2, j) && if write then ArgMod(aas, c1, j) else ArgRef(aas, c1, j)
  }

  predicate CallsMod(aas: seq<Analysis>, args: Arguments, c1: Call, c2: Call) {
    var b1, b2 := MeetBehavior(aas, c1), MeetBehavior(aas, c2);
    && (forall k :: 0 <= k < |aas| ==> aas[k].callCall(c1, c2).mod)
    && MayInteract(b1, b2) && b1.mod
    && if b2.OnlyAccessesArgPointees() then
         b2.DoesAccessArgPointees() && SomeAt(aas, args, c1, c2, args.count(c2), true)
       else if b1.OnlyAccessesArgPointees() then
         b1.DoesAccessArgPointees() && SomeFrom(aas, args, c1, c2, args.count(c1), true)
       else true
  }

  predicate CallsRef(aas: seq<Analysis>, args: Arguments, c1: Call, c2: Call) {
    var b1, b2 := MeetBehavior(aas, c1), MeetBehavior(aas, c2);
    && (forall k :: 0 <= k < |aas| ==> aas[k].callCall(c1, c2).ref)
    && MayInteract(b1, b2) && (b1.ref || !b1.mod)
    && if b2.OnlyAccessesArgPointees() then
         b2.DoesAccessArgPointees() && SomeAt(aas, args, c1, c2, args.count(c2), false)
       else if b1.OnlyAccessesArgPointees() then
         b1.DoesAccessArgPointees() && SomeFrom(aas, args, c1, c2, args.count(c1), false)
       else true
  }

  /** The "must" bit after a walk of the arguments of c2 (or c1) for these bits: all of its pointers were
      looked at, and each of them must alias what the other call accesses of it. */
  predicate SecondMust(aas: seq<Analysis>, args: Arguments, c1: Call, c2: Call, mod: bool, ref: bool) {
    var n := args.count(c2);
    && ((mod && SomeAt(aas, args, c1, c2, n, true)) || (ref && SomeAt(aas, args, c1, c2, n, false)))
    && !((mod ==> SomeAt(aas, args, c1, c2, n - 1, true)) && (ref ==> SomeAt(aas, args, c1, c2, n - 1, false)))
    && forall j: nat :: j < n && args.isPointer(c2, j) ==> LocMust(aas, args, c1, args.location(c2, j))
  }

  predicate FirstMust(aas: seq<Analysis>, args: Arguments, c1: Call, c2: Call, mod: bool, ref: bool) {
    var n := args.count(c1);
    && ((mod && SomeFrom(aas, args, c1, c2, n, true)) || (ref && SomeFrom(aas, args, c1, c2, n, false)))
    && !((mod ==> SomeFrom(aas, args, c1, c2, n - 1, true)) && (ref ==> SomeFrom(aas, args, c1, c2, n - 1, false)))
    && forall j: nat :: j < n && args.isPointer(c1, j) ==> LocMust(aas, args, c2, args.location(c1, j))
  }

  /** Whether the "must" bit is set in the answer about two calls. */
  predicate CallsMust(aas: seq<Analysis>, args: Arguments, c1: Call, c2: Call) {
    var b1, b2 := MeetBehavior(aas, c1), MeetBehavior(aas, c2);
    var mod := forall k :: 0 <= k < |aas| ==> aas[k].callCall(c1, c2).mod;
    var ref := forall k :: 0 <= k < |aas| ==> aas[k].callCall(c1, c2).ref;
    && (mod || ref) && MayInteract(b1, b2)
    && if b2.OnlyAccessesArgPointees() then
         b2.DoesAccessArgPointees() && SecondMust(aas, args, c1, c2, mod && b1.mod, ref && (b1.ref || !b1.mod))
       else if b1.OnlyAccessesArgPointees() then
         b1.DoesAccessArgPointees() && FirstMust(aas, args, c1, c2, mod && b1.mod, ref && (b1.ref || !b1.mod))
       else exists k :: 0 <= k < |aas| && !aas[k].callCall(c1, c2).vague
  }

  // ----- the queries -----

  class AAResults {
    const aas: seq<Analysis>
    const args: Arguments

    constructor (aas: seq<Analysis>, args: Arguments)
      ensures this.aas == aas && this.args == args
    {
      this.aas, this.args := aas, args;
    }

    method Alias(a: Loc, b: Loc) returns (r: AliasResult)
      ensures r == FirstDefinite(aas, a, b)
    {
      for k := 0 to |aas|
        invariant FirstDefinite(aas, a, b) == FirstDefinite(aas[k..], a, b)
      {
        r := aas[k].alias(a, b);
        if r != MayAlias {
          return;
        }
      }
      return MayAlias;
    }

    method PointsToConstantMemory(l: Loc) returns (r: bool)
      ensures r <==> Constant(aas, l)
    {
      for k := 0 to |aas|
        invariant forall i :: 0 <= i < k ==> !aas[i].pointsToConstantMemory(l)
      {
        if aas[k].pointsToConstantMemory(l) {
          return true;
        }
      }
      return false;
    }

    method GetArgModRefInfo(c: Call, j: nat) returns (result: ModRefInfo)
      ensures result.Agrees(ArgMod(aas, c, j), ArgRef(aas, c, j))
    {
      result := ModAndRef;
      for k := 0 to |aas|
        invariant result.mod <==> forall i :: 0 <= i < k ==> aas[i].argModRef(c, j).mod
        invariant result.ref <==> forall i :: 0 <= i < k ==> aas[i].argModRef(c, j).ref
      {
        result := result.Intersect(aas[k].argModRef(c, j));
        if result.IsNoModRef() {
          return NoModRef;
        }
      }
    }

    method GetModRefBehavior(c: Call) returns (result: Behavior)
      ensures result == MeetBehavior(aas, c)
    {
      result := UnknownBehavior;
      for k := 0 to |aas|
        invariant result == MeetBehavior(aas[..k], c)
      {
        assert aas[..k + 1][..k] == aas[..k];
        result := result.Intersect(aas[k].behavior(c));
        if result == DoesNotAccessMemory {
          BottomStays(aas, c, k + 1);
          return;
        }
      }
      assert aas[..|aas|] == aas;
    }

    /** What a call may do to a location. */
    method GetModRefInfoOfLoc(c: Call, l: Loc) returns (result: ModRefInfo)
      ensures result.Agrees(LocMod(aas, args, c, l), LocRef(aas, args, c, l))
      ensures !result.vague <==> LocMust(aas, args, c, l)
    {
      hide MeetBehavior, Reaches, ArgMod, ArgRef, Constant, MustReach;
      result := ModAndRef;
      for k := 0 to |aas|
        invariant result.mod <==> forall i :: 0 <= i < k ==> aas[i].callLoc(c, l).mod
        invariant result.ref <==> forall i :: 0 <= i < k ==> aas[i].callLoc(c, l).ref
        invariant result.vague <==> forall i :: 0 <= i < k ==> aas[i].callLoc(c, l).vague
        invariant !result.IsNoModRef()
      {
        result := result.Intersect(aas[k].callLoc(c, l));
        if result.IsNoModRef() {
          return NoModRef;
        }
      }
      var b := GetModRefBehavior(c);
      if b == DoesNotAccessMemory || b == OnlyAccessesInaccessibleMem {
        return NoModRef;
      }
      if b.OnlyReadsMemory() {
        result := result.Intersect(Ref);
      } else if b.DoesNotReadMemory() {
        result := result.Intersect(Mod);
      }
      if b.OnlyAccessesArgPointees() || b.OnlyAccessesInaccessibleOrArgMem() {
        var isMustAlias, allArgsMask := true, NoModRef;
        if b.DoesAccessArgPointees() {
          allArgsMask, isMustAlias := ArgumentsMask(c, l);
        }
        if allArgsMask.IsNoModRef() {
          return NoModRef;
        }
        result := result.Intersect(allArgsMask);
        result := result.(vague := !isMustAlias);
      }
      if result.mod {
        var constant := PointsToConstantMemory(l);
        if constant {
          result := result.Intersect(Ref);
        }
      }
    }

    /** What a call may do to its arguments that may alias a location, and whether all of them must. */
    method ArgumentsMask(c: Call, l: Loc) returns (allArgsMask: ModRefInfo, isMustAlias: bool)
      ensures allArgsMask.Agrees(
                exists j: nat :: j < args.count(c) && Reaches(aas, args, c, j, l) && ArgMod(aas, c, j),
                exists j: nat :: j < args.count(c) && Reaches(aas, args, c, j, l) && ArgRef(aas, c, j))
      ensures isMustAlias <==> MustReach(aas, args, c, l)
    {
      hide ArgMod, ArgRef;
      isMustAlias, allArgsMask := true, NoModRef;
      for j := 0 to args.count(c)
        invariant allArgsMask.mod <==> exists i: nat :: i < j && Reaches(aas, args, c, i, l) && ArgMod(aas, c, i)
        invariant allArgsMask.ref <==> exists i: nat :: i < j && Reaches(aas, args, c, i, l) && ArgRef(aas, c, i)
        invariant isMustAlias <==> forall i: nat :: i < j && args.isPointer(c, i) ==>
                                     FirstDefinite(aas, args.location(c, i), l) == MustAlias
      {
        if !args.isPointer(c, j) {
          continue;
        }
        var argAlias := Alias(args.location(c, j), l);
        if argAlias != NoAlias {
          var argMask := GetArgModRefInfo(c, j);
          allArgsMask := allArgsMask.Union(argMask);
        }
        isMustAlias := isMustAlias && argAlias == MustAlias;
      }
    }

    /** How call c1 may depend on call c2: "mod" if c1 may write what c2 accesses, "ref" if c1 may read
        what c2 writes. */
    method GetModRefInfoOfCalls(c1: Call, c2: Call) returns (result: ModRefInfo)
      ensures result.Agrees(CallsMod(aas, args, c1, c2), CallsRef(aas, args, c1, c2))
      ensures !result.vague <==> CallsMust(aas, args, c1, c2)
    {
      hide MeetBehavior, SomeAt, SomeFrom, SecondMust, FirstMust;
      result := ModAndRef;
      for k := 0 to |aas|
        invariant result.mod <==> forall i :: 0 <= i < k ==> aas[i].callCall(c1, c2).mod
        invariant result.ref <==> forall i :: 0 <= i < k ==> aas[i].callCall(c1, c2).ref
        invariant result.vague <==> forall i :: 0 <= i < k ==> aas[i].callCall(c1, c2).vague
        invariant !result.IsNoModRef()
      {
        result := result.Intersect(aas[k].callCall(c1, c2));
        if result.IsNoModRef() {
          return NoModRef;
        }
      }
      var b1 := GetModRefBehavior(c1);
      if b1 == DoesNotAccessMemory {
        return NoModRef;
      }
      var b2 := GetModRefBehavior(c2);
      if b2 == DoesNotAccessMemory {
        return NoModRef;
      }
      if b1.OnlyReadsMemory() && b2.OnlyReadsMemory() {
        return NoModRef;
      }
      if b1.OnlyReadsMemory() {
        result := result.Intersect(Ref);
      } else if b1.DoesNotReadMemory() {
        result := result.Intersect(Mod);
      }
      if b2.OnlyAccessesArgPointees() {
        if !b2.DoesAccessArgPointees() {
          return NoModRef;
        }
        result := WalkSecondArguments(c1, c2, result);
      } else if b1.OnlyAccessesArgPointees() {
        if !b1.DoesAccessArgPointees() {
          return NoModRef;
        }
        result := WalkFirstArguments(c1, c2, result);
      }
    }

    /** Walks the arguments of c2, which accesses nothing else, until nothing can be added. */
    method WalkSecondArguments(c1: Call, c2: Call, result: ModRefInfo) returns (r: ModRefInfo)
      ensures r.Agrees(result.mod && SomeAt(aas, args, c1, c2, args.count(c2), true),
                       result.ref && SomeAt(aas, args, c1, c2, args.count(c2), false))
      ensures !r.vague <==> SecondMust(aas, args, c1, c2, result.mod, result.ref)
    {
      hide LocMod, LocRef, LocMust, ArgMod, ArgRef;
      r := NoModRef;
      var isMustAlias := true;
      for j := 0 to args.count(c2)
        invariant r.mod <==> result.mod && SomeAt(aas, args, c1, c2, j, true)
        invariant r.ref <==> result.ref && SomeAt(aas, args, c1, c2, j, false)
        invariant isMustAlias <==> forall i: nat :: i < j && args.isPointer(c2, i) ==>
                    LocMust(aas, args, c1, args.location(c2, i))
        invariant (result.vague ==> r.vague) && (r.IsNoModRef() || (r.vague == result.vague && r != result))
      {
        if !args.isPointer(c2, j) {
          continue;
        }
        var argModRef2 := GetArgModRefInfo(c2, j);
        var argMask := NoModRef;
        if argModRef2.mod {
          argMask := ModAndRef;
        } else if argModRef2.ref {
          argMask := Mod;
        }
        var modRef1 := GetModRefInfoOfLoc(c1, args.location(c2, j));
        argMask := argMask.Intersect(modRef1);
        assert argMask.Agrees(ConflictAt(aas, args, c1, c2, j, true), ConflictAt(aas, args, c1, c2, j, false));
        isMustAlias := isMustAlias && !modRef1.vague;
        r := r.Union(argMask).Intersect(result);
        if r == result {
          if j + 1 != args.count(c2) {
            isMustAlias := false;
          }
          break;
        }
      }
      if r.IsNoModRef() {
        return NoModRef;
      }
      r := r.(vague := !isMustAlias);
    }

    /** Walks the arguments of c1, which accesses nothing else, until nothing can be added. */
    method WalkFirstArguments(c1: Call, c2: Call, result: ModRefInfo) returns (r: ModRefInfo)
      ensures r.Agrees(result.mod && SomeFrom(aas, args, c1, c2, args.count(c1), true),
                       result.ref && SomeFrom(aas, args, c1, c2, args.count(c1), false))
      ensures !r.vague <==> FirstMust(aas, args, c1, c2, result.mod, result.ref)
    {
      hide LocMod, LocRef, LocMust, ArgMod, ArgRef;
      r := NoModRef;
      var isMustAlias := true;
      for j := 0 to args.count(c1)
        invariant r.mod <==> result.mod && SomeFrom(aas, args, c1, c2, j, true)
        invariant r.ref <==> result.ref && SomeFrom(aas, args, c1, c2, j, false)
        invariant isMustAlias <==> forall i: nat :: i < j && args.isPointer(c1, i) ==>
                    LocMust(aas, args, c2, args.location(c1, i))
        invariant (result.vague ==> r.vague) && (r.IsNoModRef() || (r.vague == result.vague && r != result))
      {
        if !args.isPointer(c1, j) {
          continue;
        }
        var argModRef1 := GetArgModRefInfo(c1, j);
        var modRef2 := GetModRefInfoOfLoc(c2, args.location(c1, j));
        if (argModRef1.mod && (modRef2.mod || modRef2.ref)) || (argModRef1.ref && modRef2.mod) {
          r := r.Union(argModRef1).Intersect(result);
        }
        isMustAlias := isMustAlias && !modRef2.vague;
        if r == result {
          if j + 1 != args.count(c1) {
            isMustAlias := false;
          }
          break;
        }
      }
      if r.IsNoModRef() {
        return NoModRef;
      }
      r := r.(vague := !isMustAlias);
    }
  }

  lemma {:induction false} BottomStays(aas: seq<Analysis>, c: Call, k: nat)
    requires k <= |aas| && MeetBehavior(aas[..k], c) == DoesNotAccessMemory
    ensures MeetBehavior(aas, c) == DoesNotAccessMemory
  {
    if k == |aas| {
      assert aas[..k] == aas;
    } else {
      assert aas[..|aas| - 1][..k] == aas[..k];
      BottomStays(aas[..|aas| - 1], c, k);
    }
  }

  // ----- precision: what is not reported -----

  /** The first analysis that is definite about two locations says so. */
  lemma {:induction false} FirstDefiniteDecides(aas: seq<Analysis>, a: Loc, b: Loc, r: AliasResult)
    requires r != MayAlias
    ensures FirstDefinite(aas, a, b) == r <==>
              exists k :: 0 <= k < |aas| && aas[k].alias(a, b) == r
                && forall i :: 0 <= i < k ==> aas[i].alias(a, b) == MayAlias
  {
    if aas != [] {
      var rest := aas[1..];
      FirstDefiniteDecides(rest, a, b, r);
      if FirstDefinite(aas, a, b) == r {
        if aas[0].alias(a, b) == MayAlias {
          var k :| 0 <= k < |rest| && rest[k].alias(a, b) == r
            && forall i :: 0 <= i < k ==> rest[i].alias(a, b) == MayAlias;
          assert aas[k + 1].alias(a, b) == r;
          assert forall i :: 0 < i < k + 1 ==> aas[i] == rest[i - 1];
        }
      } else {
        forall k | 0 <= k < |aas| && aas[k].alias(a, b) == r
          ensures exists i :: 0 <= i < k && aas[i].alias(a, b) != MayAlias
        {
          if aas[0].alias(a, b) == MayAlias {
            assert rest[k - 1].alias(a, b) == r;
            var i :| 0 <= i < k - 1 && rest[i].alias(a, b) != MayAlias;
            assert aas[i + 1].alias(a, b) != MayAlias;
          }
        }
      }
    }
  }

  /** The met behavior permits what all analyses permit. */
  lemma {:induction false} MeetPermits(aas: seq<Analysis>, c: Call)
    ensures var b := MeetBehavior(aas, c);
            && (b.other <==> forall k :: 0 <= k < |aas| ==> aas[k].behavior(c).other)
            && (b.inaccessible <==> forall k :: 0 <= k < |aas| ==> aas[k].behavior(c).inaccessible)
            && (b.arguments <==> forall k :: 0 <= k < |aas| ==> aas[k].behavior(c).arguments)
            && (b.mod <==> forall k :: 0 <= k < |aas| ==> aas[k].behavior(c).mod)
            && (b.ref <==> forall k :: 0 <= k < |aas| ==> aas[k].behavior(c).ref)
  {
    if aas != [] {
      var n := |aas| - 1;
      MeetPermits(aas[..n], c);
      assert aas == aas[..n] + [aas[n]];
    }
  }

  /** Argument j of c cannot be where c modifies l: it does not alias l, or an analysis says that it is not
      modified. The same for references. */
  predicate NoModThrough(aas: seq<Analysis>, args: Arguments, c: Call, j: nat, l: Loc) {
    || FirstDefinite(aas, args.location(c, j), l) == NoAlias
    || exists k :: 0 <= k < |aas| && !aas[k].argModRef(c, j).mod
  }

  predicate NoRefThrough(aas: seq<Analysis>, args: Arguments, c: Call, j: nat, l: Loc) {
    || FirstDefinite(aas, args.location(c, j), l) == NoAlias
    || exists k :: 0 <= k < |aas| && !aas[k].argModRef(c, j).ref
  }

  /** What rules out that c modifies l: an analysis does, no write is permitted, l is constant, or only
      accesses through arguments are permitted, and none of them can be it. */
  predicate NoMod(aas: seq<Analysis>, args: Arguments, c: Call, l: Loc) {
    var b := MeetBehavior(aas, c);
    || (exists k :: 0 <= k < |aas| && !aas[k].callLoc(c, l).mod)
    || (exists k :: 0 <= k < |aas| && aas[k].pointsToConstantMemory(l))
    || !b.mod
    || (!b.other && !b.arguments)
    || (!b.other && forall j: nat :: j < args.count(c) && args.isPointer(c, j) ==> NoModThrough(aas, args, c, j, l))
  }

  /** What rules out that c references l. (A behavior that permits neither reads nor writes only counts as one
      that permits no writes, unless it permits no access to any memory.) */
  predicate NoRef(aas: seq<Analysis>, args: Arguments, c: Call, l: Loc) {
    var b := MeetBehavior(aas, c);
    || (exists k :: 0 <= k < |aas| && !aas[k].callLoc(c, l).ref)
    || (b.mod && !b.ref)
    || b == DoesNotAccessMemory
    || (!b.other && (!b.arguments || (!b.mod && !b.ref)))
    || (!b.other && forall j: nat :: j < args.count(c) && args.isPointer(c, j) ==> NoRefThrough(aas, args, c, j, l))
  }

  /** The query about a location reports everything that is not ruled out, and nothing else. */
  lemma {:induction false} LocPrecise(aas: seq<Analysis>, args: Arguments, c: Call, l: Loc)
    ensures LocMod(aas, args, c, l) <==> !NoMod(aas, args, c, l)
    ensures LocRef(aas, args, c, l) <==> !NoRef(aas, args, c, l)
  {
    hide MeetBehavior, FirstDefinite;
    forall j: nat | j < args.count(c) && args.isPointer(c, j)
      ensures NoModThrough(aas, args, c, j, l) <==> !(Reaches(aas, args, c, j, l) && ArgMod(aas, c, j))
      ensures NoRefThrough(aas, args, c, j, l) <==> !(Reaches(aas, args, c, j, l) && ArgRef(aas, c, j))
    {
    }
    hide NoModThrough, NoRefThrough, ArgMod, ArgRef;
  }

  /** "Must" is reported exactly if something was not ruled out at first, and an analysis has found so, or
      all pointer arguments must alias the location and one of them may be accessed. */
  lemma {:induction false} MustPrecise(aas: seq<Analysis>, args: Arguments, c: Call, l: Loc)
    ensures var b := MeetBehavior(aas, c);
            LocMust(aas, args, c, l) <==>
              && ((forall k :: 0 <= k < |aas| ==> aas[k].callLoc(c, l).mod)
                  || (forall k :: 0 <= k < |aas| ==> aas[k].callLoc(c, l).ref))
              && b != DoesNotAccessMemory && b != OnlyAccessesInaccessibleMem
              && if b.other then exists k :: 0 <= k < |aas| && !aas[k].callLoc(c, l).vague
                 else
                   && (b.mod || b.ref) && b.arguments
                   && (forall j: nat :: j < args.count(c) && args.isPointer(c, j) ==>
                         FirstDefinite(aas, args.location(c, j), l) == MustAlias)
                   && exists j: nat :: j < args.count(c) && args.isPointer(c, j)
                        && (!NoModThrough(aas, args, c, j, l) || !NoRefThrough(aas, args, c, j, l))
  {
    hide MeetBehavior, FirstDefinite;
    forall j: nat | j < args.count(c) && args.isPointer(c, j)
      ensures NoModThrough(aas, args, c, j, l) <==> !(Reaches(aas, args, c, j, l) && ArgMod(aas, c, j))
      ensures NoRefThrough(aas, args, c, j, l) <==> !(Reaches(aas, args, c, j, l) && ArgRef(aas, c, j))
    {
    }
    hide NoModThrough, NoRefThrough, ArgMod, ArgRef;
  }

  /** What c2 does to its argument j cannot conflict with c1 writing (or reading) it. */
  predicate NoConflictAt(aas: seq<Analysis>, args: Arguments, c1: Call, c2: Call, j: nat, write: bool) {
    var l := args.location(c2, j);
    if write then
      || NoMod(aas, args, c1, l)
      || ((exists k :: 0 <= k < |aas| && !aas[k].argModRef(c2, j).mod)
          && (exists k :: 0 <= k < |aas| && !aas[k].argModRef(c2, j).ref))
    else NoRef(aas, args, c1, l) || exists k :: 0 <= k < |aas| && !aas[k].argModRef(c2, j).mod
  }

  /** Writing (or reading) its argument j, c1 cannot conflict with c2. A read counts as a conflict, too, where
      c1 may write the argument and c2 reads it, since the whole mask of the argument is taken over. */
  predicate NoConflictFrom(aas: seq<Analysis>, args: Arguments, c1: Call, c2: Call, j: nat, write: bool) {
    var l := args.location(c1, j);
    if write then
      || (exists k :: 0 <= k < |aas| && !aas[k].argModRef(c1, j).mod)
      || (NoMod(aas, args, c2, l) && NoRef(aas, args, c2, l))
    else
      || (exists k :: 0 <= k < |aas| && !aas[k].argModRef(c1, j).ref)
      || (NoMod(aas, args, c2, l)
          && (NoRef(aas, args, c2, l) || exists k :: 0 <= k < |aas| && !aas[k].argModRef(c1, j).mod))
  }

  /** What rules out that c1 writes what c2 accesses. */
  predicate NoCallsMod(aas: seq<Analysis>, args: Arguments, c1: Call, c2: Call) {
    var b1, b2 := MeetBehavior(aas, c1), MeetBehavior(aas, c2);
    || (exists k :: 0 <= k < |aas| && !aas[k].callCall(c1, c2).mod)
    || !b1.mod || b2 == DoesNotAccessMemory
    || if !b2.other && !b2.inaccessible then
         || !b2.arguments || (!b2.mod && !b2.ref)
         || forall j: nat :: j < args.count(c2) && args.isPointer(c2, j) ==> NoConflictAt(aas, args, c1, c2, j, true)
       else
         && !b1.other && !b1.inaccessible
         && (!b1.arguments
             || forall j: nat :: j < args.count(c1) && args.isPointer(c1, j) ==>
                  NoConflictFrom(aas, args, c1, c2, j, true))
  }

  /** What rules out that c1 reads what c2 writes. */
  predicate NoCallsRef(aas: seq<Analysis>, args: Arguments, c1: Call, c2: Call) {
    var b1, b2 := MeetBehavior(aas, c1), MeetBehavior(aas, c2);
    || (exists k :: 0 <= k < |aas| && !aas[k].callCall(c1, c2).ref)
    || b1 == DoesNotAccessMemory || b2 == DoesNotAccessMemory || (!b1.mod && !b2.mod) || (b1.mod && !b1.ref)
    || if !b2.other && !b2.inaccessible then
         || !b2.arguments || (!b2.mod && !b2.ref)
         || forall j: nat :: j < args.count(c2) && args.isPointer(c2, j) ==> NoConflictAt(aas, args, c1, c2, j, false)
       else
         && !b1.other && !b1.inaccessible
         && (!b1.arguments || (!b1.mod && !b1.ref)
             || forall j: nat :: j < args.count(c1) && args.isPointer(c1, j) ==>
                  NoConflictFrom(aas, args, c1, c2, j, false))
  }

  lemma {:induction false} ConflictPrecise(aas: seq<Analysis>, args: Arguments, c1: Call, c2: Call, j: nat, write: bool)
    ensures ConflictAt(aas, args, c1, c2, j, write)
       <==> args.isPointer(c2, j) && !NoConflictAt(aas, args, c1, c2, j, write)
    ensures (ConflictFrom(aas, args, c1, c2, j) && if write then ArgMod(aas, c1, j) else ArgRef(aas, c1, j))
       <==> args.isPointer(c1, j) && !NoConflictFrom(aas, args, c1, c2, j, write)
  {
    hide NoMod, NoRef, LocMod, LocRef;
    LocPrecise(aas, args, c1, args.location(c2, j));
    LocPrecise(aas, args, c2, args.location(c1, j));
  }

  /** So does the query about two calls. */
  lemma {:induction false} CallsPrecise(aas: seq<Analysis>, args: Arguments, c1: Call, c2: Call)
    ensures CallsMod(aas, args, c1, c2) <==> !NoCallsMod(aas, args, c1, c2)
    ensures CallsRef(aas, args, c1, c2) <==> !NoCallsRef(aas, args, c1, c2)
  {
    hide MeetBehavior, ConflictAt, ConflictFrom, NoConflictAt, NoConflictFrom, ArgMod, ArgRef;
    SomePrecise(aas, args, c1, c2);
  }

  /** It reports "must" exactly if an analysis has found so, or else something is reported, all pointers that
      are walked must alias what the other call accesses of them, and no bit that was admitted is found before
      the last argument. */
  lemma {:induction false} CallsMustPrecise(aas: seq<Analysis>, args: Arguments, c1: Call, c2: Call)
    ensures var b1, b2 := MeetBehavior(aas, c1), MeetBehavior(aas, c2);
            var mod := forall k :: 0 <= k < |aas| ==> aas[k].callCall(c1, c2).mod;
            var ref := forall k :: 0 <= k < |aas| ==> aas[k].callCall(c1, c2).ref;
            var reported := CallsMod(aas, args, c1, c2) || CallsRef(aas, args, c1, c2);
            CallsMust(aas, args, c1, c2) <==>
              if !b2.other && !b2.inaccessible then
                && reported
                && (forall j: nat :: j < args.count(c2) && args.isPointer(c2, j) ==>
                      LocMust(aas, args, c1, args.location(c2, j)))
                && ((mod && b1.mod && forall j: nat :: j + 1 < args.count(c2) && args.isPointer(c2, j) ==>
                                        NoConflictAt(aas, args, c1, c2, j, true))
                    || (ref && (b1.ref || !b1.mod) && forall j: nat ::
                        j + 1 < args.count(c2) && args.isPointer(c2, j) ==>
                                                        NoConflictAt(aas, args, c1, c2, j, false)))
              else if !b1.other && !b1.inaccessible then
                && reported
                && (forall j: nat :: j < args.count(c1) && args.isPointer(c1, j) ==>
                      LocMust(aas, args, c2, args.location(c1, j)))
                && ((mod && b1.mod && forall j: nat :: j + 1 < args.count(c1) && args.isPointer(c1, j) ==>
                                        NoConflictFrom(aas, args, c1, c2, j, true))
                    || (ref && (b1.ref || !b1.mod) && forall j: nat ::
                        j + 1 < args.count(c1) && args.isPointer(c1, j) ==>
                                                        NoConflictFrom(aas, args, c1, c2, j, false)))
              else
                && (mod || ref) && b1 != DoesNotAccessMemory && b2 != DoesNotAccessMemory && (b1.mod || b2.mod)
                && exists k :: 0 <= k < |aas| && !aas[k].callCall(c1, c2).vague
  {
    hide MeetBehavior, ConflictAt, ConflictFrom, NoConflictAt, NoConflictFrom, ArgMod, ArgRef, LocMust;
    SomePrecise(aas, args, c1, c2);
  }

  lemma {:induction false} SomePrecise(aas: seq<Analysis>, args: Arguments, c1: Call, c2: Call)
    ensures forall n: nat, write :: SomeAt(aas, args, c1, c2, n, write) <==>
              exists j: nat :: j < n && args.isPointer(c2, j) && !NoConflictAt(aas, args, c1, c2, j, write)
    ensures forall n: nat, write :: SomeFrom(aas, args, c1, c2, n, write) <==>
              exists j: nat :: j < n && args.isPointer(c1, j) && !NoConflictFrom(aas, args, c1, c2, j, write)
  {
    forall n: nat, write
      ensures SomeAt(aas, args, c1, c2, n, write) <==>
                exists j: nat :: j < n && args.isPointer(c2, j) && !NoConflictAt(aas, args, c1, c2, j, write)
      ensures SomeFrom(aas, args, c1, c2, n, write) <==>
                exists j: nat :: j < n && args.isPointer(c1, j) && !NoConflictFrom(aas, args, c1, c2, j, write)
    {
      SomePreciseTo(aas, args, c1, c2, n, write);
    }
  }

  lemma {:induction false} SomePreciseTo(aas: seq<Analysis>, args: Arguments, c1: Call, c2: Call, n: nat, write: bool)
    ensures SomeAt(aas, args, c1, c2, n, write) <==>
              exists j: nat :: j < n && args.isPointer(c2, j) && !NoConflictAt(aas, args, c1, c2, j, write)
    ensures SomeFrom(aas, args, c1, c2, n, write) <==>
              exists j: nat :: j < n && args.isPointer(c1, j) && !NoConflictFrom(aas, args, c1, c2, j, write)
  {
    hide ConflictAt, ConflictFrom, NoConflictAt, NoConflictFrom, ArgMod, ArgRef;
    forall j: nat
      ensures ConflictAt(aas, args, c1, c2, j, write)
         <==> args.isPointer(c2, j) && !NoConflictAt(aas, args, c1, c2, j, write)
    {
      ConflictPrecise(aas, args, c1, c2, j, write);
    }
    forall j: nat
      ensures (ConflictFrom(aas, args, c1, c2, j) && if write then ArgMod(aas, c1, j) else ArgRef(aas, c1, j))
         <==> args.isPointer(c1, j) && !NoConflictFrom(aas, args, c1, c2, j, write)
    {
      ConflictPrecise(aas, args, c1, c2, j, write);
    }
  }

  // ----- soundness -----

  datatype Kind = Read | Write

  /** How memory is accessed: through a pointer argument, inaccessible to the program, or otherwise. */
  datatype Via = Argument(j: nat) | Inaccessible | Other

  /** What calls really do, which addresses are in a location, which of them never change, and which
      locations start at the same address. */
  datatype World = World(does: (Call, Kind, Via, Addr) -> bool, contains: (Loc, Addr) -> bool, constant: Addr -> bool,
                         same: (Loc, Loc) -> bool)
  {
    ghost predicate Accesses(c: Call, kind: Kind, x: Addr) { exists via :: does(c, kind, via, x) }

    ghost predicate Consistent(args: Arguments) {
      && (forall c, via, x :: does(c, Write, via, x) ==> !constant(x))
      && (forall c, kind, j: nat, x :: does(c, kind, Argument(j), x) ==>
            j < args.count(c) && args.isPointer(c, j) && contains(args.location(c, j), x))
      && (forall c, kind, x, l :: does(c, kind, Inaccessible, x) ==> !contains(l, x))
      && (forall a, b :: same(a, b) ==> same(b, a))
    }

    /** Call c1 writes what c2 accesses. */
    ghost predicate ModConflict(c1: Call, c2: Call) {
      exists x, kind :: Accesses(c1, Write, x) && Accesses(c2, kind, x)
    }

    /** Call c1 reads what c2 writes. */
    ghost predicate RefConflict(c1: Call, c2: Call) {
      exists x :: Accesses(c1, Read, x) && Accesses(c2, Write, x)
    }

    ghost predicate Modifies(c: Call, l: Loc) { exists x :: contains(l, x) && Accesses(c, Write, x) }

    ghost predicate References(c: Call, l: Loc) { exists x :: contains(l, x) && Accesses(c, Read, x) }

    /** All that c does to l, it does through arguments that start where l does. */
    ghost predicate OnlyThrough(args: Arguments, c: Call, l: Loc) {
      forall kind, via, x :: contains(l, x) && does(c, kind, via, x) ==>
          via.Argument? && same(args.location(c, via.j), l)
    }

    /** What both calls access, they access through arguments that start at the same address. */
    ghost predicate OnlyShared(args: Arguments, c1: Call, c2: Call) {
      forall kind1, via1, kind2, via2, x {:trigger does(c1, kind1, via1, x), does(c2, kind2, via2, x)} ::
        does(c1, kind1, via1, x) && does(c2, kind2, via2, x) ==>
          via1.Argument? && via2.Argument? && same(args.location(c1, via1.j), args.location(c2, via2.j))
    }

    /** An analysis that never rules out what really happens, and only says "must" where it is so. */
    ghost predicate Sound(aa: Analysis, args: Arguments) {
      && (forall a, b, x :: contains(a, x) && contains(b, x) ==> aa.alias(a, b) != NoAlias)
      && (forall l, x :: aa.pointsToConstantMemory(l) && contains(l, x) ==> constant(x))
      && (forall c, j: nat, x :: does(c, Write, Argument(j), x) ==> aa.argModRef(c, j).mod)
      && (forall c, j: nat, x :: does(c, Read, Argument(j), x) ==> aa.argModRef(c, j).ref)
      && (forall c, l :: Modifies(c, l) ==> aa.callLoc(c, l).mod)
      && (forall c, l :: References(c, l) ==> aa.callLoc(c, l).ref)
      && (forall c1, c2 :: ModConflict(c1, c2) ==> aa.callCall(c1, c2).mod)
      && (forall c1, c2 :: RefConflict(c1, c2) ==> aa.callCall(c1, c2).ref)
      && (forall c, kind, via, x :: does(c, kind, via, x) ==> Permits(aa.behavior(c), kind, via))
      && (forall a, b :: aa.alias(a, b) == MustAlias ==> same(a, b))
      && (forall c, l :: !aa.callLoc(c, l).vague ==> OnlyThrough(args, c, l))
      && (forall c1, c2 :: !aa.callCall(c1, c2).vague ==> OnlyShared(args, c1, c2))
    }
  }

  predicate Permits(b: Behavior, kind: Kind, via: Via) {
    && (match kind case Read => b.ref case Write => b.mod)
    && (match via case Argument(_) => b.arguments case Inaccessible => b.inaccessible case Other => b.other)
  }

  ghost predicate AllSound(w: World, aas: seq<Analysis>, args: Arguments) {
    w.Consistent(args) && forall k :: 0 <= k < |aas| ==> w.Sound(aas[k], args)
  }

  lemma {:induction false} AliasSound(w: World, aas: seq<Analysis>, args: Arguments, a: Loc, b: Loc, x: Addr)
    requires AllSound(w, aas, args) && w.contains(a, x) && w.contains(b, x)
    ensures FirstDefinite(aas, a, b) != NoAlias
  {
    if aas != [] {
      assert w.Sound(aas[0], args);
      assert forall k :: 0 <= k < |aas| - 1 ==> aas[1..][k] == aas[k + 1];
      AliasSound(w, aas[1..], args, a, b, x);
    }
  }

  lemma {:induction false} BehaviorSound(w: World, aas: seq<Analysis>, args: Arguments, c: Call, kind: Kind, via: Via,
                                         x: Addr)
    requires AllSound(w, aas, args) && w.does(c, kind, via, x)
    ensures Permits(MeetBehavior(aas, c), kind, via)
  {
    if aas != [] {
      var n := |aas| - 1;
      assert w.Sound(aas[n], args);
      BehaviorSound(w, aas[..n], args, c, kind, via, x);
    }
  }

  /** Whatever a call does to a location is reported. */
  lemma {:induction false} LocSound(w: World, aas: seq<Analysis>, args: Arguments, c: Call, l: Loc, kind: Kind,
                                    via: Via, x: Addr)
    requires AllSound(w, aas, args) && w.contains(l, x) && w.does(c, kind, via, x)
    ensures if kind == Write then LocMod(aas, args, c, l) else LocRef(aas, args, c, l)
  {
    BehaviorSound(w, aas, args, c, kind, via, x);
    assert w.Accesses(c, kind, x);
    assert if kind == Write then w.Modifies(c, l) else w.References(c, l);
    assert kind == Write ==> !Constant(aas, l);
    if via.Argument? {
      AliasSound(w, aas, args, args.location(c, via.j), l, x);
      assert Reaches(aas, args, c, via.j, l);
    }
  }

  /** If c1 writes what c2 accesses, "mod" is reported. */
  lemma {:induction false} CallsModSound(w: World, aas: seq<Analysis>, args: Arguments, c1: Call, c2: Call,
                                         via1: Via, kind2: Kind, via2: Via, x: Addr)
    requires AllSound(w, aas, args) && w.does(c1, Write, via1, x) && w.does(c2, kind2, via2, x)
    ensures CallsMod(aas, args, c1, c2)
  {
    BehaviorSound(w, aas, args, c1, Write, via1, x);
    BehaviorSound(w, aas, args, c2, kind2, via2, x);
    assert w.Accesses(c1, Write, x) && w.Accesses(c2, kind2, x);
    assert w.ModConflict(c1, c2);
    if via2.Argument? {
      LocSound(w, aas, args, c1, args.location(c2, via2.j), Write, via1, x);
      assert ConflictAt(aas, args, c1, c2, via2.j, true);
    }
    if via1.Argument? {
      LocSound(w, aas, args, c2, args.location(c1, via1.j), kind2, via2, x);
      assert ConflictFrom(aas, args, c1, c2, via1.j);
    }
  }

  /** If c1 reads what c2 writes, "ref" is reported. */
  lemma {:induction false} CallsRefSound(w: World, aas: seq<Analysis>, args: Arguments, c1: Call, c2: Call,
                                         via1: Via, via2: Via, x: Addr)
    requires AllSound(w, aas, args) && w.does(c1, Read, via1, x) && w.does(c2, Write, via2, x)
    ensures CallsRef(aas, args, c1, c2)
  {
    BehaviorSound(w, aas, args, c1, Read, via1, x);
    BehaviorSound(w, aas, args, c2, Write, via2, x);
    assert w.Accesses(c1, Read, x) && w.Accesses(c2, Write, x);
    assert w.RefConflict(c1, c2);
    if via2.Argument? {
      LocSound(w, aas, args, c1, args.location(c2, via2.j), Read, via1, x);
      assert ConflictAt(aas, args, c1, c2, via2.j, false);
    }
    if via1.Argument? {
      LocSound(w, aas, args, c2, args.location(c1, via1.j), Write, via2, x);
      assert ConflictFrom(aas, args, c1, c2, via1.j);
    }
  }

  lemma {:induction false} MustAliasSound(w: World, aas: seq<Analysis>, args: Arguments, a: Loc, b: Loc)
    requires AllSound(w, aas, args) && FirstDefinite(aas, a, b) == MustAlias
    ensures w.same(a, b)
  {
    if aas != [] {
      assert w.Sound(aas[0], args);
      assert forall k :: 0 <= k < |aas| - 1 ==> aas[1..][k] == aas[k + 1];
      if aas[0].alias(a, b) == MayAlias {
        MustAliasSound(w, aas[1..], args, a, b);
      }
    }
  }

  /** Where "must" is reported, a call reaches a location only through arguments that start where it does;
      unless an analysis has said so, such an argument has been found. */
  lemma {:induction false} LocMustSound(w: World, aas: seq<Analysis>, args: Arguments, c: Call, l: Loc)
    requires AllSound(w, aas, args) && LocMust(aas, args, c, l)
    ensures w.OnlyThrough(args, c, l)
    ensures !MeetBehavior(aas, c).other ==>
              exists j: nat :: j < args.count(c) && Reaches(aas, args, c, j, l) && w.same(args.location(c, j), l)
  {
    if !MeetBehavior(aas, c).other {
      forall kind, via, x | w.contains(l, x) && w.does(c, kind, via, x)
        ensures via.Argument? && w.same(args.location(c, via.j), l)
      {
        BehaviorSound(w, aas, args, c, kind, via, x);
        MustAliasSound(w, aas, args, args.location(c, via.j), l);
      }
      var j: nat :| j < args.count(c) && Reaches(aas, args, c, j, l);
      MustAliasSound(w, aas, args, args.location(c, j), l);
    }
  }

  /** Where "must" is reported of two calls, all that they share is reached through arguments that start at
      the same address. */
  lemma {:induction false} CallsMustSound(w: World, aas: seq<Analysis>, args: Arguments, c1: Call, c2: Call)
    requires AllSound(w, aas, args) && CallsMust(aas, args, c1, c2)
    ensures w.OnlyShared(args, c1, c2)
  {
    hide LocMust, SomeAt, SomeFrom;
    var b1, b2 := MeetBehavior(aas, c1), MeetBehavior(aas, c2);
    if b1.OnlyAccessesArgPointees() || b2.OnlyAccessesArgPointees() {
      forall kind1, via1, kind2, via2, x | w.does(c1, kind1, via1, x) && w.does(c2, kind2, via2, x)
        ensures via1.Argument? && via2.Argument? && w.same(args.location(c1, via1.j), args.location(c2, via2.j))
      {
        BehaviorSound(w, aas, args, c1, kind1, via1, x);
        BehaviorSound(w, aas, args, c2, kind2, via2, x);
        if b2.OnlyAccessesArgPointees() {
          LocMustSound(w, aas, args, c1, args.location(c2, via2.j));
        } else {
          LocMustSound(w, aas, args, c2, args.location(c1, via1.j));
        }
      }
    }
  }

  /** An answer can be only "must": here, of a call that only writes through its arguments, asked about
      constant memory that its argument must alias. */
  lemma {:induction false} OnlyMust(l: Loc, c: Call)
    ensures var writer := Behavior(false, false, true, true, false);
            var aa := Analysis((a, b) => MustAlias, a => true, (d, j) => ModAndRef, (d, a) => ModAndRef,
                               (d, e) => ModAndRef, d => writer);
            var args := Arguments(d => 1, (d, j) => true, (d, j) => l);
            LocMust([aa], args, c, l) && !LocMod([aa], args, c, l) && !LocRef([aa], args, c, l)
  {
    var writer := Behavior(false, false, true, true, false);
    var aa := Analysis((a, b) => MustAlias, a => true, (d, j) => ModAndRef, (d, a) => ModAndRef, (d, e) => ModAndRef,
                       d => writer);
    var args := Arguments(d => 1, (d, j) => true, (d, j) => l);
    assert [aa][..0] == [] && MeetBehavior([aa], c) == writer;
    assert Reaches([aa], args, c, 0, l) && ArgMod([aa], c, 0);
    assert Constant([aa], l);
  }

  /** A combination of sound analyses is sound: no conflict is missed. */
  lemma {:induction false} CombinationIsSound(w: World, aas: seq<Analysis>, args: Arguments)
    requires AllSound(w, aas, args)
    ensures forall c, l :: w.Modifies(c, l) ==> LocMod(aas, args, c, l)
    ensures forall c, l :: w.References(c, l) ==> LocRef(aas, args, c, l)
    ensures forall c1, c2 :: w.ModConflict(c1, c2) ==> CallsMod(aas, args, c1, c2)
    ensures forall c1, c2 :: w.RefConflict(c1, c2) ==> CallsRef(aas, args, c1, c2)
  {
    forall c, l | w.Modifies(c, l)
      ensures LocMod(aas, args, c, l)
    {
      var x, via :| w.contains(l, x) && w.does(c, Write, via, x);
      LocSound(w, aas, args, c, l, Write, via, x);
    }
    forall c, l | w.References(c, l)
      ensures LocRef(aas, args, c, l)
    {
      var x, via :| w.contains(l, x) && w.does(c, Read, via, x);
      LocSound(w, aas, args, c, l, Read, via, x);
    }
    forall c1, c2 | w.ModConflict(c1, c2)
      ensures CallsMod(aas, args, c1, c2)
    {
      var x, kind :| w.Accesses(c1, Write, x) && w.Accesses(c2, kind, x);
      var via1 :| w.does(c1, Write, via1, x);
      var via2 :| w.does(c2, kind, via2, x);
      CallsModSound(w, aas, args, c1, c2, via1, kind, via2, x);
    }
    forall c1, c2 | w.RefConflict(c1, c2)
      ensures CallsRef(aas, args, c1, c2)
    {
      var x :| w.Accesses(c1, Read, x) && w.Accesses(c2, Write, x);
      var via1 :| w.does(c1, Read, via1, x);
      var via2 :| w.does(c2, Write, via2, x);
      CallsRefSound(w, aas, args, c1, c2, via1, via2, x);
    }
  }
}
