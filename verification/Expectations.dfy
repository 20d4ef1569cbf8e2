/** The order of expectations in Google Mock: prerequisites, retirement, and which expectation handles a
    call (gmock-spec-builders). */
module Expectations {

  class ExpectationBase {
    /** The cardinality: how often the expectation must and may be called. */
    const min: nat
    const max: nat
    const retiresOnSaturation: bool
    var prerequisites: set<ExpectationBase>
    var callCount: nat
    var retired: bool
    /** Above the rank of every prerequisite. */
    ghost var rank: nat

    /** Bounds that make no sense are put right (and reported). */
    constructor (min: int, max: int, retiresOnSaturation: bool)
      ensures this.min <= this.max && this.retiresOnSaturation == retiresOnSaturation
      ensures 0 <= min <= max ==> this.min == min && this.max == max
      ensures prerequisites == {} && callCount == 0 && !retired
    {
      var low := if min >= 0 then min else 0;
      this.min, this.max := low, if max >= low then max else low;
      this.retiresOnSaturation := retiresOnSaturation;
      prerequisites, callCount, retired, rank := {}, 0, false, 0;
    }

    predicate IsSatisfied()
      reads this`callCount
    {
      min <= callCount <= max
    }

    predicate IsSaturated()
      reads this`callCount
    {
      callCount >= max
    }

    /** Retires exactly the expectations that come before this one. */
    method RetireAllPreRequisites(ghost w: set<ExpectationBase>)
      requires this in w && Acyclic(w) && RetiredClosed(w)
      modifies w`retired
      ensures forall e :: e in w ==> (e.retired <==> old(e.retired) || e in Ancestors(this, w))
      ensures RetiredClosed(w)
      decreases rank, 0
    {
      hide Ancestors, RetiredClosed;
      if retired {
        ClosedAncestors(this, w);
      } else {
        ghost var seen: set<ExpectationBase> := {};
        var todo := prerequisites;
        while todo != {}
          invariant todo <= prerequisites
          invariant RetiredClosed(w)
          invariant forall p :: p in prerequisites - todo ==> p in seen && Ancestors(p, w) <= seen
          invariant seen <= Ancestors(this, w)
          invariant forall e :: e in w ==> (e.retired <==> old(e.retired) || e in seen)
        {
          var p :| p in todo;
          AncestorsOfPrerequisite(this, p, w);
          RetireWithPreRequisites(p, w);
          seen := seen + {p} + Ancestors(p, w);
          todo := todo - {p};
        }
        AncestorsWithin(this, w, seen);
      }
    }

    /** The body of the loop over the prerequisites. */
    static method RetireWithPreRequisites(p: ExpectationBase, ghost w: set<ExpectationBase>)
      requires p in w && Acyclic(w) && RetiredClosed(w)
      modifies w`retired
      ensures forall e :: e in w ==> (e.retired <==> old(e.retired) || e == p || e in Ancestors(p, w))
      ensures RetiredClosed(w)
      decreases p.rank, 1
    {
      hide Ancestors;
      if !p.retired {
        p.RetireAllPreRequisites(w);
        p.retired := true;
        forall q | q in p.prerequisites
          ensures q.retired
        {
          AncestorsOfPrerequisite(p, q, w);
        }
      } else {
        ClosedAncestors(p, w);
      }
    }

    /** Whether all expectations that come before this one are satisfied. */
    method AllPrerequisitesAreSatisfied(ghost w: set<ExpectationBase>) returns (all: bool)
      requires this in w && Acyclic(w)
      ensures all <==> forall a :: a in Ancestors(this, w) ==> a.IsSatisfied()
      decreases rank
    {
      hide Ancestors;
      ghost var seen: set<ExpectationBase> := {};
      var todo := prerequisites;
      all := true;
      while todo != {} && all
        invariant todo <= prerequisites
        invariant forall p :: p in prerequisites - todo ==> p in seen && Ancestors(p, w) <= seen
        invariant seen <= Ancestors(this, w)
        invariant all <==> forall e :: e in seen ==> e.IsSatisfied()
      {
        var p :| p in todo;
        AncestorsOfPrerequisite(this, p, w);
        if !p.IsSatisfied() {
          all := false;
        } else {
          all := p.AllPrerequisitesAreSatisfied(w);
        }
        seen := seen + {p} + Ancestors(p, w);
        todo := todo - {p};
      }
      if all { AncestorsWithin(this, w, seen); }
    }

    /** Adds unsatisfied expectations that come before this one: some, unless all of them are satisfied. */
    method FindUnsatisfiedPrerequisites(found: set<ExpectationBase>, ghost w: set<ExpectationBase>)
      returns (result: set<ExpectationBase>)
      requires this in w && Acyclic(w) && CalledInOrder(w)
      ensures found <= result
      ensures forall a :: a in result - found ==> a in Ancestors(this, w) && !a.IsSatisfied()
      ensures SomeUnsatisfied(Ancestors(this, w)) ==> SomeUnsatisfied(result * Ancestors(this, w))
      ensures found == {} ==> (result != {} <==> SomeUnsatisfied(Ancestors(this, w)))
      decreases rank
    {
      hide Ancestors, CalledInOrder;
      ghost var seen: set<ExpectationBase> := {};
      var todo := prerequisites;
      result := found;
      while todo != {}
        invariant todo <= prerequisites
        invariant found <= result
        invariant forall p :: p in prerequisites - todo ==> p in seen && Ancestors(p, w) <= seen
        invariant seen <= Ancestors(this, w)
        invariant forall a :: a in result - found ==> a in Ancestors(this, w) && !a.IsSatisfied()
        invariant SomeUnsatisfied(seen) ==> SomeUnsatisfied(result * seen)
      {
        var p :| p in todo;
        AncestorsOfPrerequisite(this, p, w);
        if p.IsSatisfied() {
          if p.callCount == 0 {
            result := p.FindUnsatisfiedPrerequisites(result, w);
          } else {
            CalledSatisfied(p, w);
          }
        } else {
          result := result + {p};
        }
        seen := seen + {p} + Ancestors(p, w);
        todo := todo - {p};
      }
      AncestorsWithin(this, w, seen);
      if found == {} && result != {} {
        var a :| a in result;
        assert a in result - found;
      }
    }

    /** TypedExpectation::After: all of s comes before this expectation, which is only now being set up. */
    method After(s: set<ExpectationBase>, ghost w: set<ExpectationBase>)
      requires this in w && s <= w && InOrder(w) && Untouched(this, w) && this !in s
      modifies this`prerequisites, this`rank
      ensures InOrder(w) && Untouched(this, w)
      ensures prerequisites == old(prerequisites) + s
    {
      prerequisites := prerequisites + s;
      rank := RankAbove(prerequisites);
    }

    /** TypedExpectation::ShouldHandleArguments, for arguments that match or do not. */
    method ShouldHandleArguments(matches: bool, ghost w: set<ExpectationBase>) returns (yes: bool)
      requires this in w && InOrder(w)
      ensures yes <==> !retired && matches && forall a :: a in Ancestors(this, w) ==> a.IsSatisfied()
    {
      var satisfied := AllPrerequisitesAreSatisfied(w);
      yes := !retired && satisfied && matches;
    }

    /** TypedExpectation::GetActionForArguments. A call too many is only counted; any other call retires
        everything that comes before, so that it can never be called again. */
    method GetActionForArguments(ghost w: set<ExpectationBase>) returns (excessive: bool)
      requires this in w && InOrder(w) && !retired
      requires forall a :: a in Ancestors(this, w) ==> a.IsSatisfied()
      modifies this`callCount, w`retired
      ensures InOrder(w)
      ensures callCount == old(callCount) + 1
      ensures excessive <==> old(callCount) >= max
      ensures forall e :: e in w && e != this ==>
        (e.retired <==> old(e.retired) || (!excessive && e in Ancestors(this, w)))
      ensures retired <==> !excessive && retiresOnSaturation && callCount == max
    {
      hide Ancestors;
      AncestorsAreLower(this, w);
      excessive := IsSaturated();
      callCount := callCount + 1;
      if !excessive {
        RetireAllPreRequisites(w);
        forall p | p in prerequisites
          ensures p.retired
        {
          AncestorsOfPrerequisite(this, p, w);
        }
        if retiresOnSaturation && IsSaturated() {
          retired := true;
          ClosedWith(this, w);
        }
      }
    }
  }

  /** Sequence: each expectation added comes after the one added before. */
  class Sequence {
    var last: ExpectationBase?

    constructor ()
      ensures last == null
    {
      last := null;
    }

    method AddExpectation(e: ExpectationBase, ghost w: set<ExpectationBase>)
      requires e in w && InOrder(w) && Untouched(e, w) && (last != null ==> last in w)
      modifies this, e`prerequisites, e`rank
      ensures last == e
      ensures e.prerequisites == old(e.prerequisites) + if old(last) != null && old(last) != e then {old(last)} else {}
      ensures InOrder(w) && Untouched(e, w)
    {
      if last != e {
        if last != null {
          e.After({last}, w);
        }
        last := e;
      }
    }
  }

  /** A mock function and its expectations, the newest last. */
  class FunctionMocker {
    var expectations: seq<ExpectationBase>

    constructor ()
      ensures expectations == []
    {
      expectations := [];
    }

    /** FunctionMocker::AddNewExpectation, without the implicit sequence. */
    method AddNewExpectation(e: ExpectationBase)
      modifies this
      ensures expectations == old(expectations) + [e]
    {
      expectations := expectations + [e];
    }

    ghost predicate NoneAfter(k: nat, matching: set<ExpectationBase>, w: set<ExpectationBase>)
      requires (forall j :: 0 <= j < |expectations| ==> expectations[j] in w) && InOrder(w)
      reads this, w
    {
      forall j :: k < j < |expectations| ==> !Handles(expectations[j], matching, w)
    }

    /** The newest expectation that should handle the call. */
    method FindMatchingExpectation(matching: set<ExpectationBase>, ghost w: set<ExpectationBase>)
      returns (found: ExpectationBase?)
      requires (forall k :: 0 <= k < |expectations| ==> expectations[k] in w) && InOrder(w)
      ensures found != null ==> found in expectations && found in w && Handles(found, matching, w)
      ensures found == null ==> forall k :: 0 <= k < |expectations| ==> !Handles(expectations[k], matching, w)
      ensures found != null ==> exists k ::
        0 <= k < |expectations| && expectations[k] == found && NoneAfter(k, matching, w)
    {
      hide InOrder, Ancestors;
      var k: int := |expectations|;
      found := null;
      while k > 0 && found == null
        invariant 0 <= k <= |expectations|
        invariant found == null ==> forall j :: k <= j < |expectations| ==> !Handles(expectations[j], matching, w)
        invariant found != null ==> k < |expectations| && expectations[k] == found && Handles(found, matching, w)
        invariant forall j :: k < j < |expectations| ==> !Handles(expectations[j], matching, w)
      {
        k := k - 1;
        var yes := expectations[k].ShouldHandleArguments(expectations[k] in matching, w);
        if yes { found := expectations[k]; }
      }
    }

    /** A call of the mock function. Whatever the calls so far, it is handled by an expectation only if all
        that comes before is satisfied, and afterwards the order is still kept. */
    method Invoke(matching: set<ExpectationBase>, ghost w: set<ExpectationBase>)
      returns (handler: ExpectationBase?, excessive: bool)
      requires (forall k :: 0 <= k < |expectations| ==> expectations[k] in w) && InOrder(w)
      modifies w`callCount, w`retired
      ensures InOrder(w)
      ensures handler == null ==> forall e :: e in w ==> unchanged(e)
      ensures handler != null ==> handler in expectations && handler in matching && old(Handles(handler, matching, w))
      ensures handler != null ==>
        handler.callCount == old(handler.callCount) + 1 && (excessive <==> old(handler.callCount) >= handler.max)
      ensures handler != null && !excessive ==> forall a :: a in Ancestors(handler, w) ==> a.retired && a.IsSatisfied()
      ensures forall e :: e in w && e != handler ==> e.callCount == old(e.callCount) && (old(e.retired) ==> e.retired)
    {
      hide InOrder, Ancestors;
      handler := FindMatchingExpectation(matching, w);
      excessive := false;
      if handler != null {
        HandlesMember(handler, w);
        excessive := handler.GetActionForArguments(w);
      }
    }
  }

  // ---------------------------------------------------------------------------
  // The order

  /** No expectation comes before itself, and w has all the prerequisites of its members. */
  ghost predicate Acyclic(w: set<ExpectationBase>)
    reads w`prerequisites, w`rank
  {
    forall e :: e in w ==> forall p :: p in e.prerequisites ==> p in w && p.rank < e.rank
  }

  /** All expectations that come before e. */
  ghost function Ancestors(e: ExpectationBase, w: set<ExpectationBase>): (s: set<ExpectationBase>)
    requires e in w && Acyclic(w)
    reads w`prerequisites, w`rank
    ensures s <= w
    decreases e.rank
  {
    e.prerequisites + set p, a | p in e.prerequisites && a in Ancestors(p, w) :: a
  }

  lemma AncestorsOfPrerequisite(e: ExpectationBase, p: ExpectationBase, w: set<ExpectationBase>)
    requires e in w && Acyclic(w) && p in e.prerequisites
    ensures p in w && p.rank < e.rank && p in Ancestors(e, w) && Ancestors(p, w) <= Ancestors(e, w)
  {
  }

  lemma AncestorsWithin(e: ExpectationBase, w: set<ExpectationBase>, s: set<ExpectationBase>)
    requires e in w && Acyclic(w)
    requires forall p :: p in e.prerequisites ==> p in s && Ancestors(p, w) <= s
    ensures Ancestors(e, w) <= s
  {
  }

  lemma {:induction false} AncestorsAreLower(e: ExpectationBase, w: set<ExpectationBase>)
    requires e in w && Acyclic(w)
    ensures forall a :: a in Ancestors(e, w) ==> a.rank < e.rank
    decreases e.rank
  {
    forall p | p in e.prerequisites
      ensures forall a :: a in Ancestors(p, w) ==> a.rank < e.rank
    {
      AncestorsAreLower(p, w);
    }
  }

  /** Nothing is retired before all its prerequisites are. */
  ghost predicate RetiredClosed(w: set<ExpectationBase>)
    requires Acyclic(w)
    reads w`prerequisites, w`rank, w`retired
  {
    forall e, p :: e in w && e.retired && p in e.prerequisites ==> p.retired
  }

  lemma {:induction false} ClosedAncestors(e: ExpectationBase, w: set<ExpectationBase>)
    requires e in w && Acyclic(w) && RetiredClosed(w) && e.retired
    ensures forall a :: a in Ancestors(e, w) ==> a.retired
    decreases e.rank
  {
    forall a | a in Ancestors(e, w)
      ensures a.retired
    {
      if a !in e.prerequisites {
        var p :| p in e.prerequisites && a in Ancestors(p, w);
        ClosedAncestors(p, w);
      }
    }
  }

  ghost predicate SomeUnsatisfied(s: set<ExpectationBase>)
    reads s`callCount
  {
    exists e :: e in s && !e.IsSatisfied()
  }

  /** A satisfied expectation that has been called comes after satisfied expectations only. */
  ghost predicate CalledInOrder(w: set<ExpectationBase>)
    requires Acyclic(w)
    reads w`prerequisites, w`rank, w`callCount
  {
    forall e, a :: e in w && e.IsSatisfied() && e.callCount > 0 && a in Ancestors(e, w) ==> a in w && a.IsSatisfied()
  }

  lemma CalledSatisfied(e: ExpectationBase, w: set<ExpectationBase>)
    requires e in w && Acyclic(w) && CalledInOrder(w) && e.IsSatisfied() && e.callCount > 0
    ensures forall a :: a in Ancestors(e, w) ==> a.IsSatisfied()
  {
    hide Ancestors;
  }

  ghost predicate Handles(e: ExpectationBase, matching: set<ExpectationBase>, w: set<ExpectationBase>)
    requires e in w && InOrder(w)
    reads w
  {
    !e.retired && e in matching && forall a :: a in Ancestors(e, w) ==> a.IsSatisfied()
  }

  lemma HandlesMember(e: ExpectationBase, w: set<ExpectationBase>)
    requires e in w && InOrder(w)
    ensures Acyclic(w) && e !in Ancestors(e, w)
  {
    AncestorsAreLower(e, w);
  }

  // ---------------------------------------------------------------------------
  // What every call keeps

  /** Retired expectations are satisfied, and an expectation that has had a proper call has retired
      everything that comes before it. */
  ghost predicate InOrder(w: set<ExpectationBase>)
    reads w
  {
    && Acyclic(w)
    && RetiredClosed(w)
    && (forall e :: e in w ==> e.min <= e.max)
    && (forall e :: e in w && e.retired ==> e.IsSatisfied())
    && (forall e, p :: e in w && e.callCount > 0 && e.max > 0 && p in e.prerequisites ==> p.retired)
  }

  /** An expectation that is being set up: never called, and nothing comes after it yet. */
  ghost predicate Untouched(e: ExpectationBase, w: set<ExpectationBase>)
    reads w, e
  {
    e.callCount == 0 && !e.retired && forall x :: x in w ==> e !in x.prerequisites
  }

  lemma ClosedWith(e: ExpectationBase, w: set<ExpectationBase>)
    requires e in w && Acyclic(w)
    requires forall x, p :: x in w && x != e && x.retired && p in x.prerequisites ==> p.retired
    requires forall p :: p in e.prerequisites ==> p.retired
    ensures RetiredClosed(w)
  {
  }

  /** So in every reachable state called expectations come after satisfied ones only, which is what
      FindUnsatisfiedPrerequisites relies on. */
  lemma OrderMeansCalledInOrder(w: set<ExpectationBase>)
    requires InOrder(w)
    ensures CalledInOrder(w)
  {
    forall e, a | e in w && e.IsSatisfied() && e.callCount > 0 && a in Ancestors(e, w)
      ensures a in w && a.IsSatisfied()
    {
      if a !in e.prerequisites {
        var p :| p in e.prerequisites && a in Ancestors(p, w);
        ClosedAncestors(p, w);
      }
    }
  }

  ghost function RankAbove(s: set<ExpectationBase>): (r: nat)
    reads s`rank
    ensures forall e :: e in s ==> e.rank < r
  {
    if s == {} then 0
    else
      var e :| e in s;
      var r := RankAbove(s - {e});
      if e.rank < r then r else e.rank + 1
  }

  // ---------------------------------------------------------------------------
  // Whole tests

  /** Before anything is expected, everything is in order. */
  lemma InOrderAtFirst()
    ensures InOrder({})
  {
  }

  /** A new expectation keeps the order, and can be set up. */
  lemma InOrderWith(w: set<ExpectationBase>, e: ExpectationBase)
    requires InOrder(w) && e !in w && e.min <= e.max && e.prerequisites == {} && e.callCount == 0 && !e.retired
    ensures InOrder(w + {e}) && Untouched(e, w + {e})
  {
  }

  /** What comes before each member, as a value. */
  ghost predicate Closure(anc: map<ExpectationBase, set<ExpectationBase>>, w: set<ExpectationBase>)
    reads w`prerequisites
  {
    anc.Keys == w && forall e :: e in w ==>
      && e.prerequisites <= w
      && anc[e] == e.prerequisites + set p, a | p in e.prerequisites && a in anc[p] :: a
  }

  lemma ClosureNow(w: set<ExpectationBase>)
    requires Acyclic(w)
    ensures Closure(map e | e in w :: Ancestors(e, w), w)
  {
    var anc := map e | e in w :: Ancestors(e, w);
    forall e | e in w
      ensures anc[e] == e.prerequisites + set p, a | p in e.prerequisites && a in anc[p] :: a
    {
      assert forall p :: p in e.prerequisites ==> anc[p] == Ancestors(p, w);
    }
  }

  /** The expectations that come before a member do not depend on those that have been added. */
  lemma {:induction false} ClosureIsUnique(x: ExpectationBase, anc: map<ExpectationBase, set<ExpectationBase>>,
                                           w: set<ExpectationBase>, more: set<ExpectationBase>)
    requires Closure(anc, w) && w <= more && Acyclic(more) && x in w
    ensures Ancestors(x, more) == anc[x]
    decreases x.rank
  {
    forall p | p in x.prerequisites
      ensures Ancestors(p, more) == anc[p]
    {
      ClosureIsUnique(p, anc, w, more);
    }
  }

  lemma CalledRetires(e: ExpectationBase, w: set<ExpectationBase>)
    requires InOrder(w) && e in w && e.callCount > 0 && e.max > 0
    ensures forall a :: a in Ancestors(e, w) ==> a in w && a.retired && a.IsSatisfied()
  {
    forall a | a in Ancestors(e, w)
      ensures a in w && a.retired && a.IsSatisfied()
    {
      if a !in e.prerequisites {
        var p :| p in e.prerequisites && a in Ancestors(p, w);
        ClosedAncestors(p, w);
      }
    }
  }

  lemma OrderIsAcyclic(w: set<ExpectationBase>)
    requires InOrder(w)
    ensures Acyclic(w)
  {
  }

  /** What a test does: it expects calls of a mock function, after other expectations and in sequences; or it calls
      one. Expectations are counted in the order in which they are made. */
  datatype Event =
    | Expect(mock: nat, min: int, max: int, retires: bool, after: set<nat>, sequences: seq<nat>)
    | Call(mock: nat, matching: set<nat>)

  function Members(made: seq<ExpectationBase>): set<ExpectationBase> { set e | e in made }

  function Expects(events: seq<Event>): seq<Event> {
    if events == [] then []
    else Expects(events[..|events| - 1]) + if events[|events| - 1].Expect? then [events[|events| - 1]] else []
  }

  /** What became of a call. */
  datatype Handling = Handled(handler: ExpectationBase, excessive: bool) | Unexpected {
    predicate Proper() { Handled? && !excessive }
  }

  /** The clauses After name predecessors. */
  ghost predicate AfterKept(expects: seq<Event>, made: seq<ExpectationBase>)
    reads made`prerequisites
  {
    && |expects| == |made|
    && forall k, n :: 0 <= n < k < |made| && expects[k].Expect? && n in expects[k].after ==>
         made[n] in made[k].prerequisites
  }

  ghost predicate AllIn(mocks: seq<FunctionMocker>, sequences: seq<Sequence>, w: set<ExpectationBase>)
    reads mocks, sequences
  {
    && (forall k, e :: 0 <= k < |mocks| && e in mocks[k].expectations ==> e in w)
    && (forall k :: 0 <= k < |sequences| && sequences[k].last != null ==> sequences[k].last in w)
  }

  /** No call has been handled by an expectation that comes before one which has already had a proper call. */
  ghost predicate OrderKept(trace: seq<Handling>, w: set<ExpectationBase>)
    requires InOrder(w)
    reads w
  {
    && (forall i :: 0 <= i < |trace| && trace[i].Handled? ==> trace[i].handler in w)
    && (forall i :: 0 <= i < |trace| && trace[i].Proper() ==>
          trace[i].handler.callCount > 0 && trace[i].handler.max > 0)
    && (forall i, j :: 0 <= i < j < |trace| && trace[i].Proper() && trace[j].Handled? ==>
          trace[j].handler !in Ancestors(trace[i].handler, w))
  }

  /** The clauses After and InSequence of a new expectation. */
  method SetUp(e: ExpectationBase, before: set<ExpectationBase>, sequences: seq<Sequence>, chosen: seq<nat>,
               ghost mocks: seq<FunctionMocker>, ghost w: set<ExpectationBase>)
    requires e in w && before <= w && e !in before && InOrder(w) && Untouched(e, w) && AllIn(mocks, sequences, w)
    modifies e`prerequisites, e`rank, sequences
    ensures InOrder(w) && Untouched(e, w) && AllIn(mocks, sequences, w) && before <= e.prerequisites
  {
    hide InOrder, Untouched;
    e.After(before, w);
    for k := 0 to |chosen|
      invariant InOrder(w) && Untouched(e, w) && AllIn(mocks, sequences, w) && before <= e.prerequisites
    {
      if chosen[k] < |sequences| {
        sequences[chosen[k]].AddExpectation(e, w);
      }
    }
  }

  /** The mock function, if there is one, gets the new expectation. */
  method Register(e: ExpectationBase, mock: nat, mocks: seq<FunctionMocker>, ghost sequences: seq<Sequence>,
                  ghost w: set<ExpectationBase>)
    requires AllIn(mocks, sequences, w)
    modifies mocks
    ensures AllIn(mocks, sequences, w + {e})
  {
    if mock < |mocks| { mocks[mock].AddNewExpectation(e); }
  }

  /** No handling by what comes before an earlier proper one, in terms of values. */
  ghost predicate NoneBefore(trace: seq<Handling>, anc: map<ExpectationBase, set<ExpectationBase>>) {
    && (forall i :: 0 <= i < |trace| && trace[i].Handled? ==> trace[i].handler in anc)
    && (forall i, j :: 0 <= i < j < |trace| && trace[i].Proper() && trace[j].Handled? ==>
          trace[j].handler !in anc[trace[i].handler])
  }

  lemma OrderStays(trace: seq<Handling>, anc: map<ExpectationBase, set<ExpectationBase>>, w: set<ExpectationBase>,
                   more: set<ExpectationBase>)
    requires Closure(anc, w) && NoneBefore(trace, anc) && w <= more && InOrder(more)
    requires forall i :: 0 <= i < |trace| && trace[i].Proper() ==>
      trace[i].handler.callCount > 0 && trace[i].handler.max > 0
    ensures OrderKept(trace, more)
  {
    hide InOrder, Ancestors, Closure;
    OrderIsAcyclic(more);
    assert anc.Keys == w by { ClosureKeys(anc, w); }
    forall x | x in w ensures Ancestors(x, more) == anc[x] { ClosureIsUnique(x, anc, w, more); }
  }

  lemma ClosureKeys(anc: map<ExpectationBase, set<ExpectationBase>>, w: set<ExpectationBase>)
    requires Closure(anc, w)
    ensures anc.Keys == w
  {
  }

  /** One more expectation. */
  method PlayExpect(x: Event, made: seq<ExpectationBase>, mocks: seq<FunctionMocker>, sequences: seq<Sequence>,
                    ghost trace: seq<Handling>)
    returns (e: ExpectationBase)
    requires x.Expect? && InOrder(Members(made)) && AllIn(mocks, sequences, Members(made))
    requires OrderKept(trace, Members(made))
    modifies mocks, sequences
    ensures fresh(e) && forall k :: k in x.after && k < |made| ==> made[k] in e.prerequisites
    ensures InOrder(Members(made + [e])) && AllIn(mocks, sequences, Members(made + [e]))
    ensures OrderKept(trace, Members(made + [e]))
  {
    hide InOrder, Untouched, Ancestors, AllIn, Closure;
    ghost var w := Members(made);
    OrderIsAcyclic(w);
    ghost var anc := map y | y in w :: Ancestors(y, w);
    ClosureNow(w);
    e := new ExpectationBase(x.min, x.max, x.retires);
    assert Members(made + [e]) == w + {e};
    InOrderWith(w, e);
    Register(e, x.mock, mocks, sequences, w);
    var before := set k | k in x.after && k < |made| :: made[k];
    SetUp(e, before, sequences, x.sequences, mocks, w + {e});
    OrderStays(trace, anc, w, w + {e});
  }

  /** One more call; what the trace says of earlier ones stays true. */
  method PlayCall(x: Event, made: seq<ExpectationBase>, mocks: seq<FunctionMocker>, ghost sequences: seq<Sequence>,
                  trace: seq<Handling>)
    returns (more: seq<Handling>)
    requires x.Call? && InOrder(Members(made)) && AllIn(mocks, sequences, Members(made))
    requires OrderKept(trace, Members(made))
    modifies Members(made)`callCount, Members(made)`retired
    ensures InOrder(Members(made)) && AllIn(mocks, sequences, Members(made)) && OrderKept(more, Members(made))
    ensures |more| == |trace| + 1 && more[..|trace|] == trace
    ensures more[|trace|].Unexpected? ==> forall e :: e in Members(made) ==> unchanged(e)
  {
    hide InOrder, Ancestors;
    ghost var w := Members(made);
    more := trace + [Unexpected];
    if x.mock < |mocks| {
      var matching := set k | k in x.matching && k < |made| :: made[k];
      EarlierRetired(trace, w);
      var handler, excessive := mocks[x.mock].Invoke(matching, w);
      if handler != null {
        more := trace + [Handled(handler, excessive)];
      }
    }
  }

  /** All that comes before a proper call is retired, so it handles no further call. */
  lemma EarlierRetired(trace: seq<Handling>, w: set<ExpectationBase>)
    requires InOrder(w) && OrderKept(trace, w)
    ensures forall i, a :: 0 <= i < |trace| && trace[i].Proper() && a in Ancestors(trace[i].handler, w) ==>
      a.retired && a.IsSatisfied()
  {
    hide InOrder, Ancestors;
    OrderIsAcyclic(w);
    forall i, a | 0 <= i < |trace| && trace[i].Proper() && a in Ancestors(trace[i].handler, w)
      ensures a.retired && a.IsSatisfied()
    {
      CalledRetires(trace[i].handler, w);
    }
  }

  /** Every test, whatever it expects, in whatever order, and whatever it calls: the order holds at the end; all that
      comes before an expectation with a proper call is satisfied and retired, and has handled no call since. */
  method Play(mocks: nat, sequences: nat, events: seq<Event>)
    returns (made: seq<ExpectationBase>, trace: seq<Handling>)
    ensures AfterKept(Expects(events), made) && |made| + |trace| == |events|
    ensures InOrder(Members(made)) && CalledInOrder(Members(made)) && OrderKept(trace, Members(made))
    ensures forall i, a ::
      0 <= i < |trace| && trace[i].Proper() && a in Ancestors(trace[i].handler, Members(made)) ==>
        a.retired && a.IsSatisfied()
  {
    hide InOrder, OrderKept, AllIn, CalledInOrder, Ancestors, AfterKept, Expects;
    var ms: seq<FunctionMocker>, ss: seq<Sequence> := [], [];
    while |ms| < mocks
      invariant |ms| <= mocks && forall k :: 0 <= k < |ms| ==> fresh(ms[k]) && ms[k].expectations == []
      decreases mocks - |ms|
    {
      var m := new FunctionMocker();
      ms := ms + [m];
    }
    while |ss| < sequences
      invariant forall k :: 0 <= k < |ms| ==> ms[k].expectations == []
      invariant |ss| <= sequences && forall k :: 0 <= k < |ss| ==> fresh(ss[k]) && ss[k].last == null
      decreases sequences - |ss|
    {
      var s := new Sequence();
      ss := ss + [s];
    }
    made, trace := [], [];
    NothingYet(ms, ss);
    assert events[..0] == [];
    for i := 0 to |events|
      invariant InOrder(Members(made)) && AllIn(ms, ss, Members(made)) && OrderKept(trace, Members(made))
      invariant fresh(ms) && fresh(ss) && fresh(Members(made))
      invariant AfterKept(Expects(events[..i]), made) && |made| + |trace| == i
    {
      ExpectsMore(events, i);
      match events[i]
      case Expect(_, _, _, _, _, _) =>
        var e := PlayExpect(events[i], made, ms, ss, trace);
        AfterWith(Expects(events[..i]), made, events[i], e);
        assert Members(made + [e]) == Members(made) + {e};
        made := made + [e];
      case Call(_, _) =>
        assert Expects(events[..i]) + [] == Expects(events[..i]);
        trace := PlayCall(events[i], made, ms, ss, trace);
    }
    assert events[..|events|] == events;
    OrderMeansCalledInOrder(Members(made));
    EarlierRetired(trace, Members(made));
  }

  lemma ExpectsMore(events: seq<Event>, i: nat)
    requires i < |events|
    ensures Expects(events[..i + 1]) == Expects(events[..i]) + if events[i].Expect? then [events[i]] else []
  {
    assert events[..i + 1][..i] == events[..i];
  }

  lemma AfterWith(expects: seq<Event>, made: seq<ExpectationBase>, x: Event, e: ExpectationBase)
    requires AfterKept(expects, made) && x.Expect?
    requires forall k :: k in x.after && k < |made| ==> made[k] in e.prerequisites
    ensures AfterKept(expects + [x], made + [e])
  {
  }

  lemma NothingYet(mocks: seq<FunctionMocker>, sequences: seq<Sequence>)
    requires forall k :: 0 <= k < |mocks| ==> mocks[k].expectations == []
    requires forall k :: 0 <= k < |sequences| ==> sequences[k].last == null
    ensures InOrder(Members([])) && AllIn(mocks, sequences, Members([])) && OrderKept([], Members([]))
    ensures Expects([]) == [] && AfterKept([], [])
  {
    assert Members([]) == {};
    InOrderAtFirst();
  }
}
