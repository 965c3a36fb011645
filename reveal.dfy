/**
 * The scroll-reveal latch that About, Contact, Experience, Projects and
 * Skills each install: the IntersectionObserver callback walks its entries
 * and adds the class `animate-fade-in` to every target that is intersecting.
 * The class is never removed, so the set of revealed elements only grows.
 */
module Reveal {

  /** Identity of an element tagged `animate-on-scroll`. */
  type ElementId = nat

  /** One IntersectionObserver entry: its target and whether it intersects the viewport. */
  datatype Entry = Entry(target: ElementId, isIntersecting: bool)

  /** The targets of the intersecting entries of one callback. */
  function Intersecting(entries: seq<Entry>): (ids: set<ElementId>)
    ensures forall id :: id in ids <==>
      exists i :: 0 <= i < |entries| && entries[i].target == id && entries[i].isIntersecting
  {
    if entries == [] then {}
    else
      var rest := Intersecting(entries[1..]);
      assert forall i :: 1 <= i < |entries| ==> entries[i] == entries[1..][i - 1];
      if entries[0].isIntersecting then {entries[0].target} + rest else rest
  }

  /** Two callbacks in a row reveal what one callback with both batches reveals. */
  lemma {:induction false} IntersectingAppend(e1: seq<Entry>, e2: seq<Entry>)
    ensures Intersecting(e1 + e2) == Intersecting(e1) + Intersecting(e2)
  {
    var e := e1 + e2;
    forall id | id in Intersecting(e)
      ensures id in Intersecting(e1) + Intersecting(e2)
    {
      var i :| 0 <= i < |e| && e[i].target == id && e[i].isIntersecting;
      if i < |e1| { assert e1[i] == e[i]; } else { assert e2[i - |e1|] == e[i]; }
    }
    forall id | id in Intersecting(e1) + Intersecting(e2)
      ensures id in Intersecting(e)
    {
      if id in Intersecting(e1) {
        var i :| 0 <= i < |e1| && e1[i].target == id && e1[i].isIntersecting;
        assert e[i] == e1[i];
      } else {
        var i :| 0 <= i < |e2| && e2[i].target == id && e2[i].isIntersecting;
        assert e[|e1| + i] == e2[i];
      }
    }
  }

  /** The revealed set does not depend on the order in which the entries arrive. */
  lemma IntersectingOrderIndependent(e1: seq<Entry>, e2: seq<Entry>)
    requires multiset(e1) == multiset(e2)
    ensures Intersecting(e1) == Intersecting(e2)
  {
    forall id | id in Intersecting(e1)
      ensures id in Intersecting(e2)
    {
      var i :| 0 <= i < |e1| && e1[i].target == id && e1[i].isIntersecting;
      assert e1[i] in multiset(e2);
      var j :| 0 <= j < |e2| && e2[j] == e1[i];
    }
    forall id | id in Intersecting(e2)
      ensures id in Intersecting(e1)
    {
      var j :| 0 <= j < |e2| && e2[j].target == id && e2[j].isIntersecting;
      assert e2[j] in multiset(e1);
      var i :| 0 <= i < |e1| && e1[i] == e2[j];
    }
  }

  /** The elements that carry `animate-fade-in`. */
  class ScrollReveal {
    var revealed: set<ElementId>

    constructor ()
      ensures revealed == {}
    {
      revealed := {};
    }

    /** The observer callback: `entries.forEach(entry => if intersecting, add the class)`. */
    method HandleEntries(entries: seq<Entry>)
      modifies this
      ensures revealed == old(revealed) + Intersecting(entries)
      ensures old(revealed) <= revealed
    {
      var i := 0;
      while i < |entries|
        invariant 0 <= i <= |entries|
        invariant revealed == old(revealed) + Intersecting(entries[..i])
      {
        if entries[i].isIntersecting {
          revealed := revealed + {entries[i].target};
        }
        IntersectingAppend(entries[..i], [entries[i]]);
        assert entries[..i + 1] == entries[..i] + [entries[i]];
        i := i + 1;
      }
      assert entries[..i] == entries;
    }
  }

  /** An element none of whose entries is intersecting keeps its state. */
  lemma NonIntersectingUntouched(before: set<ElementId>, entries: seq<Entry>, id: ElementId)
    requires forall i :: 0 <= i < |entries| && entries[i].target == id ==> !entries[i].isIntersecting
    ensures id in before + Intersecting(entries) <==> id in before
  {
  }

  /** An intersecting entry always reveals its target. */
  lemma IntersectingRevealed(before: set<ElementId>, entries: seq<Entry>, i: nat)
    requires i < |entries| && entries[i].isIntersecting
    ensures entries[i].target in before + Intersecting(entries)
  {
  }

  /**
   * The latch on the class: a callback never hides anything, and the observer
   * delivering the same entries a second time changes nothing.
   */
  method RedeliverIsNoOp(r: ScrollReveal, entries: seq<Entry>) returns (afterFirst: set<ElementId>)
    modifies r
    ensures old(r.revealed) <= afterFirst
    ensures r.revealed == afterFirst
  {
    r.HandleEntries(entries);
    afterFirst := r.revealed;
    r.HandleEntries(entries);
  }
}
