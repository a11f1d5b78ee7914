/**
 * Keeping parent links free of cycles: the categories of materials (stp-api/src/costs/material-categories.service.ts)
 * and the base units of units (stp-api/src/costs/units.service.ts), each with its own walk up the links.
 */
module ParentLinks {
  import opened Wrappers

  // ---------------------------------------------------------------- walking up

  type Id = nat
  type Links = map<Id, Option<Id>>

  function ParentOf(links: Links, id: Id): Option<Id> {
    if id in links then links[id] else None
  }

  /** The n-th ancestor, if the chain is that long. */
  function Climb(links: Links, from: Id, n: nat): Option<Id> {
    if n == 0 then Some(from)
    else
      var below := Climb(links, from, n - 1);
      if below.None? then None else ParentOf(links, below.value)
  }

  predicate StepsTo(links: Links, from: Id, n: nat, to: Id) {
    Climb(links, from, n) == Some(to)
  }

  predicate EndsBy(links: Links, from: Id, n: nat) {
    Climb(links, from, n).None?
  }

  ghost predicate Acyclic(links: Links) {
    forall id: Id, n: nat :: n >= 1 ==> !StepsTo(links, id, n, id)
  }

  ghost predicate Reaches(links: Links, from: Id, to: Id) {
    exists n: nat :: StepsTo(links, from, n, to)
  }

  ghost predicate Ends(links: Links, from: Id) {
    exists n: nat :: EndsBy(links, from, n)
  }

  lemma {:induction false} ClimbOn(links: Links, from: Id, a: nat, b: nat)
    ensures Climb(links, from, a + b)
            == (if Climb(links, from, a).None? then None else Climb(links, Climb(links, from, a).value, b))
  {
    if b > 0 {
      ClimbOn(links, from, a, b - 1);
    }
  }

  lemma {:induction false} OverForGood(links: Links, from: Id, n: nat, k: nat)
    requires Climb(links, from, n).None? && k >= n
    ensures Climb(links, from, k).None?
  {
    if k > n {
      OverForGood(links, from, n, k - 1);
    }
  }

  /** Once an id comes back the walk goes round for ever among those already seen. */
  lemma {:induction false} GoesRound(links: Links, from: Id, j: nat, n: nat, k: nat) returns (i: nat)
    requires j < n && Climb(links, from, j) == Climb(links, from, n)
    ensures i < n && Climb(links, from, i) == Climb(links, from, k)
    decreases k
  {
    if k < n {
      i := k;
    } else {
      ClimbOn(links, from, n, k - n);
      ClimbOn(links, from, j, k - n);
      i := GoesRound(links, from, j, n, j + (k - n));
    }
  }

  lemma {:induction false} FirstTime(links: Links, from: Id, to: Id, n: nat) returns (m: nat)
    requires Climb(links, from, n) == Some(to)
    ensures m <= n && Climb(links, from, m) == Some(to)
    ensures forall k :: 0 <= k < m ==> Climb(links, from, k) != Some(to)
  {
    m := 0;
    while Climb(links, from, m) != Some(to)
      invariant m <= n && forall k :: 0 <= k < m ==> Climb(links, from, k) != Some(to)
      decreases n - m
    {
      m := m + 1;
    }
  }

  // ---------------------------------------------------------------- what one new link does

  function Linked(links: Links, id: Id, parent: Option<Id>): Links {
    links[id := parent]
  }

  /** A walk that has not come to `id` does not notice its link. */
  lemma {:induction false} SameUntil(links: Links, id: Id, parent: Option<Id>, from: Id, n: nat)
    requires forall k :: 0 <= k < n ==> Climb(links, from, k) != Some(id)
    ensures Climb(Linked(links, id, parent), from, n) == Climb(links, from, n)
  {
    if n > 0 {
      SameUntil(links, id, parent, from, n - 1);
    }
  }

  /** If the new parent leads to `id`, the link closes a cycle. */
  lemma LinkCloses(links: Links, id: Id, parent: Id)
    requires Reaches(links, parent, id)
    ensures !Acyclic(Linked(links, id, Some(parent)))
  {
    var n: nat :| StepsTo(links, parent, n, id);
    var m := FirstTime(links, parent, id, n);
    var after := Linked(links, id, Some(parent));
    SameUntil(links, id, Some(parent), parent, m);
    ClimbOn(after, id, 1, m);
    assert Climb(after, id, 1) == Some(parent) by {
      assert Climb(after, id, 0) == Some(id);
    }
    assert StepsTo(after, id, m + 1, id);
  }

  /** Any cycle made by the link goes through it. */
  lemma CycleThroughLink(links: Links, id: Id, parent: Option<Id>, x: Id, n: nat)
    requires Acyclic(links) && n >= 1 && Climb(Linked(links, id, parent), x, n) == Some(x)
    ensures parent.Some? && Reaches(links, parent.value, id)
  {
    var after := Linked(links, id, parent);
    assert !StepsTo(links, x, n, x);
    if forall k :: 0 <= k < n ==> Climb(links, x, k) != Some(id) {
      SameUntil(links, id, parent, x, n);
      assert false;
    }
    var k :| 0 <= k < n && Climb(links, x, k) == Some(id);
    var first := FirstTime(links, x, id, k);
    SameUntil(links, id, parent, x, first);
    Rotate(after, x, n, first, id);
    ClimbOn(after, id, 1, n - 1);
    assert Climb(after, id, 0) == Some(id);
    assert Climb(after, id, 1) == parent;
    var m := FirstTime(after, parent.value, id, n - 1);
    SameUntil(after, id, ParentOf(links, id), parent.value, m);
    Unlink(links, id, parent, parent.value, m);
    assert StepsTo(links, parent.value, m, id);
  }

  /** Taking the link out again leaves the walks as they were. */
  lemma {:induction false} Unlink(links: Links, id: Id, parent: Option<Id>, from: Id, n: nat)
    ensures Climb(Linked(Linked(links, id, parent), id, ParentOf(links, id)), from, n) == Climb(links, from, n)
  {
    if n > 0 {
      Unlink(links, id, parent, from, n - 1);
    }
  }

  /** Round a cycle every id on it comes back after as many steps. */
  lemma Rotate(links: Links, x: Id, n: nat, k: nat, y: Id)
    requires n >= 1 && Climb(links, x, n) == Some(x) && Climb(links, x, k) == Some(y)
    ensures Climb(links, y, n) == Some(y)
  {
    ClimbOn(links, x, k, n);
    ClimbOn(links, x, n, k);
  }

  /** From acyclic links, a new link keeps them acyclic exactly when its parent does not lead back to it. */
  lemma LinkKeepsAcyclic(links: Links, id: Id, parent: Id)
    requires Acyclic(links)
    ensures Acyclic(Linked(links, id, Some(parent))) <==> !Reaches(links, parent, id)
  {
    var after := Linked(links, id, Some(parent));
    if Reaches(links, parent, id) {
      LinkCloses(links, id, parent);
    } else {
      forall x: Id, n: nat | n >= 1
        ensures !StepsTo(after, x, n, x)
      {
        if Climb(after, x, n) == Some(x) {
          CycleThroughLink(links, id, Some(parent), x, n);
        }
      }
    }
  }

  lemma UnlinkKeepsAcyclic(links: Links, id: Id)
    requires Acyclic(links)
    ensures Acyclic(Linked(links, id, None))
  {
    var after := Linked(links, id, None);
    forall x: Id, n: nat | n >= 1
      ensures !StepsTo(after, x, n, x)
    {
      if Climb(after, x, n) == Some(x) {
        CycleThroughLink(links, id, None, x, n);
      }
    }
  }

  lemma {:induction false} FewerLinks(links: Links, gone: Id, from: Id, n: nat)
    ensures Climb(links - {gone}, from, n).Some? ==> Climb(links - {gone}, from, n) == Climb(links, from, n)
  {
    if n > 0 {
      FewerLinks(links, gone, from, n - 1);
    }
  }

  lemma RemoveKeepsAcyclic(links: Links, id: Id)
    requires Acyclic(links)
    ensures Acyclic(links - {id})
  {
    forall x: Id, n: nat | n >= 1
      ensures !StepsTo(links - {id}, x, n, x)
    {
      assert !StepsTo(links, x, n, x);
      FewerLinks(links, id, x, n);
    }
  }

  // ---------------------------------------------------------------- the two walks

  function Known(links: Links): set<Id> {
    links.Keys + set x | x in links && links[x].Some? :: links[x].value
  }

  ghost predicate Visited(links: Links, from: Id, n: nat, x: Id) {
    exists k: nat :: k < n && StepsTo(links, from, k, x)
  }

  /** `seen` are the ids of the first `n` steps. */
  ghost predicate SeenSoFar(links: Links, from: Id, n: nat, seen: set<Id>) {
    forall x :: x in seen <==> Visited(links, from, n, x)
  }

  /** After `n` steps the walk is at `cursor`; `left` are the ids it may still visit. */
  ghost predicate At(links: Links, from: Id, n: nat, seen: set<Id>, left: set<Id>, cursor: Option<Id>) {
    && cursor == Climb(links, from, n) && SeenSoFar(links, from, n, seen)
    && left == Known(links) + {from} - seen
    && (cursor.Some? ==> cursor.value in Known(links) + {from})
  }

  lemma OneStep(links: Links, from: Id, n: nat, seen: set<Id>, left: set<Id>, x: Id)
    requires At(links, from, n, seen, left, Some(x)) && x !in seen
    ensures At(links, from, n + 1, seen + {x}, left - {x}, ParentOf(links, x)) && x in left
  {
    forall y
      ensures Visited(links, from, n + 1, y) <==> Visited(links, from, n, y) || y == x
    {
      assert StepsTo(links, from, n, x);
      if Visited(links, from, n, y) {
        var k: nat :| k < n && StepsTo(links, from, k, y);
      }
    }
  }

  /** The walk has ended, or has come round, without meeting `to`: it never will. */
  lemma NeverReaches(links: Links, from: Id, n: nat, seen: set<Id>, to: Id)
    requires SeenSoFar(links, from, n, seen) && to !in seen
    requires Climb(links, from, n).None? || Climb(links, from, n).value in seen
    ensures !Reaches(links, from, to)
  {
    assert !Visited(links, from, n, to);
    forall k: nat
      ensures !StepsTo(links, from, k, to)
    {
      if Climb(links, from, n).None? {
        if k >= n {
          OverForGood(links, from, n, k);
        }
      } else {
        var j := Before(links, from, n, Climb(links, from, n).value);
        var i := GoesRound(links, from, j, n, k);
        assert !StepsTo(links, from, i, to);
      }
    }
  }

  lemma Before(links: Links, from: Id, n: nat, x: Id) returns (j: nat)
    requires Visited(links, from, n, x)
    ensures j < n && Climb(links, from, j) == Some(x)
  {
    j :| j < n && StepsTo(links, from, j, x);
  }

  lemma NeverEnds(links: Links, from: Id, n: nat, seen: set<Id>)
    requires SeenSoFar(links, from, n, seen) && Climb(links, from, n).Some? && Climb(links, from, n).value in seen
    ensures !Ends(links, from)
  {
    var j := Before(links, from, n, Climb(links, from, n).value);
    forall k: nat
      ensures !EndsBy(links, from, k)
    {
      var i := GoesRound(links, from, j, n, k);
      if Climb(links, from, i).None? {
        OverForGood(links, from, i, n);
      }
    }
  }

  /**
   * The walk of categories: `id` is among the seen from the start, so the way up must end and not come by `id`. It
   * terminates on any links: no id is visited twice.
   */
  method CategoryWalk(links: Links, id: Id, parent: Id) returns (accepted: bool)
    ensures accepted <==> Ends(links, parent) && !Reaches(links, parent, id)
  {
    var cursor := Some(parent);
    var seen := {id};
    ghost var n, walked, left := 0, {}, Known(links) + {parent};
    while cursor.Some?
      invariant At(links, parent, n, walked, left, cursor) && id !in walked
      invariant forall x :: x in seen <==> x in walked || x == id
      decreases |left|, cursor.Some?
    {
      if cursor.value in seen {
        if cursor.value == id {
          assert StepsTo(links, parent, n, id);
        } else {
          NeverEnds(links, parent, n, walked);
        }
        return false;
      }
      OneStep(links, parent, n, walked, left, cursor.value);
      n, walked, left := n + 1, walked + {cursor.value}, left - {cursor.value};
      seen := seen + {cursor.value};
      cursor := ParentOf(links, cursor.value);
    }
    NeverReaches(links, parent, n, walked, id);
    assert EndsBy(links, parent, n);
    return true;
  }

  /** The walk of units: an older cycle further up is let pass, since this change does not make it. */
  method UnitWalk(links: Links, id: Id, base: Id) returns (accepted: bool)
    ensures accepted <==> !Reaches(links, base, id)
  {
    var cursor := Some(base);
    var seen: set<Id> := {};
    ghost var n, left := 0, Known(links) + {base};
    while cursor.Some?
      invariant At(links, base, n, seen, left, cursor) && id !in seen
      decreases |left|, cursor.Some?
    {
      if cursor.value == id {
        assert StepsTo(links, base, n, id);
        return false;
      }
      if cursor.value in seen {
        NeverReaches(links, base, n, seen, id);
        return true;
      }
      OneStep(links, base, n, seen, left, cursor.value);
      n, left := n + 1, left - {cursor.value};
      seen := seen + {cursor.value};
      cursor := ParentOf(links, cursor.value);
    }
    NeverReaches(links, base, n, seen, id);
    return true;
  }

  // ---------------------------------------------------------------- categories

  datatype LinkError = NotFound | UnknownParent | WouldCycle | HasChildren | InUse | Incoherent

  /** Every parent is a row, as the foreign key has it. */
  ghost predicate Closed(links: Links) {
    forall id :: id in links && links[id].Some? ==> links[id].value in links
  }

  ghost predicate Sound(links: Links) {
    Acyclic(links) && Closed(links)
  }

  lemma {:induction false} StaysInside(links: Links, from: Id, n: nat)
    requires Closed(links) && from in links
    ensures Climb(links, from, n).Some? ==> Climb(links, from, n).value in links
  {
    if n > 0 {
      StaysInside(links, from, n - 1);
    }
  }

  lemma AddKeepsSound(links: Links, id: Id, parent: Option<Id>)
    requires Sound(links) && id !in links && (parent.Some? ==> parent.value in links)
    ensures Sound(Linked(links, id, parent))
  {
    if parent.Some? {
      forall n: nat
        ensures !StepsTo(links, parent.value, n, id)
      {
        StaysInside(links, parent.value, n);
      }
      LinkKeepsAcyclic(links, id, parent.value);
    } else {
      UnlinkKeepsAcyclic(links, id);
    }
  }

  /** In acyclic links every way up ends, so the stricter walk of categories refuses no more than that of units. */
  lemma AcyclicEnds(links: Links, from: Id)
    requires Acyclic(links)
    ensures Ends(links, from)
  {
    var cursor := Some(from);
    var n, seen, left := 0, {}, Known(links) + {from};
    while cursor.Some?
      invariant At(links, from, n, seen, left, cursor)
      decreases |left|, cursor.Some?
    {
      NoReturn(links, from, n, cursor.value);
      OneStep(links, from, n, seen, left, cursor.value);
      n, seen, left := n + 1, seen + {cursor.value}, left - {cursor.value};
      cursor := ParentOf(links, cursor.value);
    }
    assert EndsBy(links, from, n);
  }

  lemma NoReturn(links: Links, from: Id, n: nat, x: Id)
    requires Acyclic(links) && Climb(links, from, n) == Some(x)
    ensures !Visited(links, from, n, x)
  {
    forall k: nat | k < n
      ensures !StepsTo(links, from, k, x)
    {
      ClimbOn(links, from, k, n - k);
      assert !StepsTo(links, x, n - k, x);
    }
  }

  class Categories {
    var links: Links

    constructor ()
      ensures links == map[] && Sound(links)
    {
      links := map[];
      new;
      NoLinksNoCycle();
    }

    method Create(id: Id, parent: Option<Id>) returns (error: Option<LinkError>)
      requires Sound(links) && id !in links
      modifies this
      ensures Sound(links)
      ensures error == if parent.Some? && parent.value !in old(links) then Some(UnknownParent) else None
      ensures links == if error.None? then Linked(old(links), id, parent) else old(links)
    {
      if parent.Some? && parent.value !in links {
        return Some(UnknownParent);
      }
      AddKeepsSound(links, id, parent);
      links := links[id := parent];
      return None;
    }

    /** `parent` is what came in the request: nothing, an explicit null, or a category. */
    method Update(id: Id, parent: Option<Option<Id>>) returns (error: Option<LinkError>)
      requires Sound(links)
      modifies this
      ensures Sound(links)
      ensures error == if id !in old(links) then Some(NotFound)
        else if parent.None? || parent.value.None? then None
        else if parent.value.value !in old(links) then Some(UnknownParent)
        else if !Acyclic(Linked(old(links), id, parent.value)) then Some(WouldCycle) else None
      ensures links == if error.None? && parent.Some? then Linked(old(links), id, parent.value) else old(links)
    {
      if id !in links {
        return Some(NotFound);
      }
      if parent.None? {
        return None;
      }
      if parent.value.Some? {
        if parent.value.value !in links {
          return Some(UnknownParent);
        }
        LinkKeepsAcyclic(links, id, parent.value.value);
        AcyclicEnds(links, parent.value.value);
        var accepted := CategoryWalk(links, id, parent.value.value);
        if !accepted {
          return Some(WouldCycle);
        }
      } else {
        UnlinkKeepsAcyclic(links, id);
      }
      links := links[id := parent.value];
      return None;
    }

    method Remove(id: Id, hasMaterials: bool) returns (error: Option<LinkError>)
      requires Sound(links)
      modifies this
      ensures Sound(links)
      ensures links == if error.None? then old(links) - {id} else old(links)
      ensures error == if id !in old(links) then Some(NotFound)
        else if exists c :: c in old(links) && old(links)[c] == Some(id) then Some(HasChildren)
        else if hasMaterials then Some(InUse) else None
    {
      if id !in links {
        return Some(NotFound);
      }
      if exists c :: c in links && links[c] == Some(id) {
        return Some(HasChildren);
      }
      if hasMaterials {
        return Some(InUse);
      }
      RemoveKeepsAcyclic(links, id);
      links := links - {id};
      return None;
    }
  }

  lemma NoLinksNoCycle()
    ensures Sound(map[])
  {
    var links: Links := map[];
    forall id: Id, n: nat | n >= 1
      ensures !StepsTo(links, id, n, id)
    {
      assert Climb(links, id, 0) == Some(id);
      OverForGood(links, id, 1, n);
    }
  }

  // ---------------------------------------------------------------- units

  datatype Unit = Unit(base: Option<Id>, factor: Option<real>)

  function Bases(units: map<Id, Unit>): (links: Links)
    ensures links.Keys == units.Keys && forall id :: id in units ==> links[id] == units[id].base
  {
    map id | id in units :: units[id].base
  }

  class Units {
    var units: map<Id, Unit>

    constructor ()
      ensures units == map[] && Sound(Bases(units))
    {
      units := map[];
      new;
      NoLinksNoCycle();
      assert Bases(units) == map[];
    }

    method Create(id: Id, unit: Unit) returns (error: Option<LinkError>)
      requires Sound(Bases(units)) && id !in units
      modifies this
      ensures Sound(Bases(units))
      ensures error == if unit.base.Some? != unit.factor.Some? then Some(Incoherent)
        else if unit.base.Some? && unit.base.value !in old(units) then Some(UnknownParent) else None
      ensures units == if error.None? then old(units)[id := unit] else old(units)
    {
      if unit.base.Some? != unit.factor.Some? {
        return Some(Incoherent);
      }
      if unit.base.Some? && unit.base.value !in units {
        return Some(UnknownParent);
      }
      AddKeepsSound(Bases(units), id, unit.base);
      ghost var before := Bases(units);
      units := units[id := unit];
      assert Bases(units) == Linked(before, id, unit.base);
      return None;
    }

    method Remove(id: Id, usedByMaterials: bool) returns (error: Option<LinkError>)
      requires Sound(Bases(units))
      modifies this
      ensures Sound(Bases(units))
      ensures units == if error.None? then old(units) - {id} else old(units)
      ensures error == if id !in old(units) then Some(NotFound)
        else if usedByMaterials then Some(InUse)
        else if exists u :: u in old(units) && old(units)[u].base == Some(id) then Some(HasChildren) else None
    {
      if id !in units {
        return Some(NotFound);
      }
      if usedByMaterials {
        return Some(InUse);
      }
      if exists u :: u in units && units[u].base == Some(id) {
        return Some(HasChildren);
      }
      RemoveKeepsAcyclic(Bases(units), id);
      ghost var before := Bases(units);
      units := units - {id};
      assert Bases(units) == before - {id};
      return None;
    }

    /** `base` and `factor` are what came in the request: nothing, an explicit null, or a value. */
    method Update(id: Id, base: Option<Option<Id>>, factor: Option<Option<real>>) returns (error: Option<LinkError>)
      requires Sound(Bases(units))
      modifies this
      ensures Sound(Bases(units))
      ensures error == if id !in old(units) then Some(NotFound)
        else UpdateError(old(units), id, Checked(old(units)[id], base, factor))
      ensures error == Some(WouldCycle) <==>
        && id in old(units) && Coherent(Checked(old(units)[id], base, factor))
        && base.Some? && base.value.Some? && base.value.value in old(units)
        && !Acyclic(Linked(Bases(old(units)), id, base.value))
      ensures error.None? ==> id in old(units) && units == old(units)[id := Saved(old(units)[id], base, factor)]
      ensures error.Some? ==> units == old(units)
    {
      if id !in units {
        return Some(NotFound);
      }
      var unit := units[id];
      var nextBase := if base.Some? && base.value.Some? then base.value else unit.base;
      var nextFactor := if factor.Some? && factor.value.Some? then factor.value else unit.factor;
      assert Unit(nextBase, nextFactor) == Checked(unit, base, factor);
      if nextBase.Some? != nextFactor.Some? {
        return Some(Incoherent);
      }
      if nextBase.Some? {
        if nextBase.value !in units {
          return Some(UnknownParent);
        }
        LinkKeepsAcyclic(Bases(units), id, nextBase.value);
        OwnBaseIsFine(Bases(units), id);
        var accepted := UnitWalk(Bases(units), id, nextBase.value);
        if !accepted {
          return Some(WouldCycle);
        }
      }
      UnlinkKeepsAcyclic(Bases(units), id);
      ghost var before := Bases(units);
      units := units[id := Saved(unit, base, factor)];
      assert Bases(units) == Linked(before, id, Saved(unit, base, factor).base);
      return None;
    }
  }

  /** The base and the factor that are checked: those that came, or the unit's own for an explicit null. */
  function Checked(unit: Unit, base: Option<Option<Id>>, factor: Option<Option<real>>): Unit {
    Unit(if base.Some? && base.value.Some? then base.value else unit.base,
         if factor.Some? && factor.value.Some? then factor.value else unit.factor)
  }

  /** Both or neither, a base that exists, and one that does not lead back. */
  ghost function UpdateError(units: map<Id, Unit>, id: Id, next: Unit): Option<LinkError> {
    if !Coherent(next) then Some(Incoherent)
    else if next.base.None? then None
    else if next.base.value !in units then Some(UnknownParent)
    else if Reaches(Bases(units), next.base.value, id) then Some(WouldCycle)
    else None
  }

  /** `Object.assign` of the fields that came, nulls included. */
  function Saved(unit: Unit, base: Option<Option<Id>>, factor: Option<Option<real>>): Unit {
    Unit(if base.Some? then base.value else unit.base, if factor.Some? then factor.value else unit.factor)
  }

  /** Why a unit is not given a base: it would have half a conversion, there is no such unit, or it leads back. */
  lemma WhyAUnitIsRefused(units: map<Id, Unit>, id: Id, next: Unit)
    requires Acyclic(Bases(units))
    ensures var error := UpdateError(units, id, next);
      && (error == Some(Incoherent) <==> next.base.Some? != next.factor.Some?)
      && (error == Some(UnknownParent) <==>
            next.base.Some? && next.factor.Some? && next.base.value !in units)
      && (error == Some(WouldCycle) <==>
            && next.base.Some? && next.factor.Some? && next.base.value in units
            && !Acyclic(Linked(Bases(units), id, next.base)))
      && (error.Some? ==> error.value in {Incoherent, UnknownParent, WouldCycle})
  {
    if next.base.Some? {
      LinkKeepsAcyclic(Bases(units), id, next.base.value);
    }
  }

  /** A field that came is saved as it came, null included, and checked unless null; one that did not stays. */
  lemma WhatIsCheckedAndSaved(unit: Unit, base: Option<Option<Id>>, factor: Option<Option<real>>)
    ensures var checked, saved := Checked(unit, base, factor), Saved(unit, base, factor);
      && (match base
          case None => checked.base == saved.base == unit.base
          case Some(None) => checked.base == unit.base && saved.base == None
          case Some(Some(b)) => checked.base == saved.base == Some(b))
      && (match factor
          case None => checked.factor == saved.factor == unit.factor
          case Some(None) => checked.factor == unit.factor && saved.factor == None
          case Some(Some(f)) => checked.factor == saved.factor == Some(f))
  {
  }

  /** The base a unit already has does not lead back to it. */
  lemma OwnBaseIsFine(links: Links, id: Id)
    requires Acyclic(links)
    ensures id in links && links[id].Some? ==>
      !Reaches(links, links[id].value, id) && Linked(links, id, links[id]) == links
  {
    if id in links && links[id].Some? {
      forall n: nat
        ensures !StepsTo(links, links[id].value, n, id)
      {
        assert !StepsTo(links, id, n + 1, id);
        ClimbOn(links, id, 1, n);
        assert Climb(links, id, 0) == Some(id);
        assert Climb(links, id, 1) == links[id];
      }
    }
  }

  predicate Coherent(unit: Unit) {
    unit.base.Some? <==> unit.factor.Some?
  }

  /**
   * What an accepted update leaves is coherent exactly when base and factor are not taken away one without the other:
   * an explicit null is checked as if the field had not come, and then saved.
   */
  lemma NullLeavesHalfAConversion(unit: Unit, base: Option<Option<Id>>, factor: Option<Option<real>>)
    requires Coherent(unit) && Coherent(Checked(unit, base, factor))
    ensures Coherent(Saved(unit, base, factor)) <==>
      ((unit.base.Some? || (base.Some? && base.value.Some?)) ==> (base == Some(None) <==> factor == Some(None)))
  {
  }

  /** A unit of two of another, updated with a null base alone: the update is accepted and half a conversion stays. */
  lemma NullBaseLeavesTheFactor()
    ensures var unit, base := Unit(Some(1), Some(2.0)), Some(None);
      && Coherent(unit) && UpdateError(map[1 := Unit(None, None), 2 := unit], 2, Checked(unit, base, None)).None?
      && Saved(unit, base, None) == Unit(None, Some(2.0))
  {
    var units := map[1 := Unit(None, None), 2 := Unit(Some(1), Some(2.0))];
    forall n: nat
      ensures !StepsTo(Bases(units), 1, n, 2)
    {
      assert Climb(Bases(units), 1, 0) == Some(1);
      if n > 0 {
        assert Climb(Bases(units), 1, 1) == None;
        OverForGood(Bases(units), 1, 1, n);
      }
    }
  }
}
