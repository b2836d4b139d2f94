/**
 Folding recovery witnesses into the newest one. A witness is any value with a position; the
 recovery code folds snapshot references by the position their object name encodes.
 */
module Witnesses {
  import opened Names

  datatype Fold<T> = Newest(ref: Option<T>) | Conflict

  function Advance<T(==)>(position: T -> Option<Position>, current: Option<T>, candidate: Option<T>): Fold<T> {
    if candidate.None? then Newest(current)
    else if current.None? then Newest(candidate)
    else
      var (held, offered) := (position(current.value), position(candidate.value));
      if held == offered && current != candidate then Conflict
      else if Before(held, offered) then Newest(candidate)
      else Newest(current)
  }

  /** Every witness in arrival order, ending at the first conflict. */
  function FoldAll<T(==)>(position: T -> Option<Position>, current: Option<T>, witnesses: seq<Option<T>>): Fold<T>
    decreases |witnesses|
  {
    if witnesses == [] then Newest(current)
    else
      match Advance(position, current, witnesses[0])
      case Conflict => Conflict
      case Newest(ref) => FoldAll(position, ref, witnesses[1..])
  }

  /** `other` is not newer than `ref`, and equal to it if at the same position. */
  ghost predicate Dominates<T>(position: T -> Option<Position>, ref: Option<T>, other: Option<T>) {
    other.Some? ==>
      && ref.Some?
      && !Before(position(ref.value), position(other.value))
      && (position(ref.value) == position(other.value) ==> ref == other)
  }

  ghost predicate DominatesAll<T>(position: T -> Option<Position>, ref: Option<T>, witnesses: seq<Option<T>>) {
    forall i :: 0 <= i < |witnesses| ==> Dominates(position, ref, witnesses[i])
  }

  lemma DominatesIsTransitive<T>(position: T -> Option<Position>, a: Option<T>, b: Option<T>, c: Option<T>)
    requires Dominates(position, a, b) && Dominates(position, b, c)
    ensures Dominates(position, a, c)
  {
  }

  /** A fold that succeeds ends at a witness that dominates all of them. */
  lemma {:induction false} FoldDominates<T>(
      position: T -> Option<Position>, current: Option<T>, witnesses: seq<Option<T>>)
    requires FoldAll(position, current, witnesses).Newest?
    ensures var ref := FoldAll(position, current, witnesses).ref;
            && Dominates(position, ref, current)
            && DominatesAll(position, ref, witnesses)
            && (ref == current || ref in witnesses)
    decreases |witnesses|
  {
    if witnesses != [] {
      var ref := FoldAll(position, current, witnesses).ref;
      var next := Advance(position, current, witnesses[0]).ref;
      FoldDominates(position, next, witnesses[1..]);
      DominatesIsTransitive(position, ref, next, current);
      DominatesIsTransitive(position, ref, next, witnesses[0]);
      forall i | 0 <= i < |witnesses| ensures Dominates(position, ref, witnesses[i]) {
        assert i > 0 ==> witnesses[i] == witnesses[1..][i - 1];
      }
    }
  }

  /** A fold fails only on two different witnesses at one position. */
  lemma {:induction false} ConflictHasWitnesses<T>(
      position: T -> Option<Position>, current: Option<T>, witnesses: seq<Option<T>>) returns (a: T, b: T)
    requires FoldAll(position, current, witnesses) == Conflict
    ensures Some(a) == current || Some(a) in witnesses
    ensures Some(b) == current || Some(b) in witnesses
    ensures a != b && position(a) == position(b)
    decreases |witnesses|
  {
    match Advance(position, current, witnesses[0])
    case Conflict => a, b := current.value, witnesses[0].value;
    case Newest(ref) => a, b := ConflictHasWitnesses(position, ref, witnesses[1..]);
  }

  /** A reference that dominates every witness is kept through all of them. */
  lemma {:induction false} FoldKeepsTop<T>(
      position: T -> Option<Position>, current: Option<T>, witnesses: seq<Option<T>>)
    requires DominatesAll(position, current, witnesses)
    ensures FoldAll(position, current, witnesses) == Newest(current)
    decreases |witnesses|
  {
    if witnesses != [] {
      assert Dominates(position, current, witnesses[0]);
      FoldKeepsTop(position, current, witnesses[1..]);
    }
  }

  lemma SameMembers<X>(left: seq<X>, right: seq<X>)
    requires multiset(left) == multiset(right)
    ensures forall x :: x in left <==> x in right
  {
    assert forall x :: x in left <==> x in multiset(left);
    assert forall x :: x in right <==> x in multiset(right);
  }

  /** Two arrival orders of the same witnesses that both succeed agree. */
  lemma ArrivalOrderDoesNotMatter<T>(
      position: T -> Option<Position>, base: Option<T>, left: seq<Option<T>>, right: seq<Option<T>>)
    requires multiset(left) == multiset(right)
    requires FoldAll(position, base, left).Newest? && FoldAll(position, base, right).Newest?
    ensures FoldAll(position, base, left) == FoldAll(position, base, right)
  {
    FoldDominates(position, base, left);
    FoldDominates(position, base, right);
    SameMembers(left, right);
    var (x, y) := (FoldAll(position, base, left).ref, FoldAll(position, base, right).ref);
    assert Dominates(position, x, y) && Dominates(position, y, x);
  }

  predicate NewestAt<T>(position: T -> Option<Position>, witnesses: seq<Option<T>>, i: nat)
    requires i < |witnesses|
  {
    && witnesses[i].Some?
    && forall j :: 0 <= j < |witnesses| && witnesses[j].Some? ==>
         !Before(position(witnesses[i].value), position(witnesses[j].value))
  }

  /** Two different witnesses share the newest position. */
  ghost predicate ConflictAtTop<T>(position: T -> Option<Position>, witnesses: seq<Option<T>>) {
    exists i, j ::
      && 0 <= i < |witnesses| && 0 <= j < |witnesses|
      && NewestAt(position, witnesses, i) && NewestAt(position, witnesses, j)
      && witnesses[i] != witnesses[j]
  }

  /** A witness that dominates all of them is the only one at the newest position. */
  lemma TopIsUnique<T>(position: T -> Option<Position>, witnesses: seq<Option<T>>, ref: Option<T>, i: nat)
    requires i < |witnesses| && NewestAt(position, witnesses, i)
    requires DominatesAll(position, ref, witnesses) && ref in witnesses
    ensures witnesses[i] == ref
  {
    assert Dominates(position, ref, witnesses[i]);
  }

  /** A conflict at the newest position fails the fold, whatever the order. */
  lemma TopConflictFails<T>(
      position: T -> Option<Position>, base: Option<T>, witnesses: seq<Option<T>>, order: seq<Option<T>>)
    requires ConflictAtTop(position, [base] + witnesses) && multiset(order) == multiset(witnesses)
    ensures FoldAll(position, base, order) == Conflict
  {
    var all := [base] + witnesses;
    var i, j :| && 0 <= i < |all| && 0 <= j < |all|
                && NewestAt(position, all, i) && NewestAt(position, all, j) && all[i] != all[j];
    if FoldAll(position, base, order).Newest? {
      FoldDominatesAll(position, base, witnesses, order);
      TopIsUnique(position, all, FoldAll(position, base, order).ref, i);
      TopIsUnique(position, all, FoldAll(position, base, order).ref, j);
    }
  }

  /** The result of a fold dominates the base and all witnesses, and is one of them. */
  lemma FoldDominatesAll<T>(
      position: T -> Option<Position>, base: Option<T>, witnesses: seq<Option<T>>, order: seq<Option<T>>)
    requires multiset(order) == multiset(witnesses) && FoldAll(position, base, order).Newest?
    ensures var ref := FoldAll(position, base, order).ref;
            DominatesAll(position, ref, [base] + witnesses) && ref in [base] + witnesses
  {
    var (ref, all) := (FoldAll(position, base, order).ref, [base] + witnesses);
    FoldDominates(position, base, order);
    SameMembers(witnesses, order);
    forall k | 0 <= k < |all| ensures Dominates(position, ref, all[k]) {
      assert k > 0 ==> all[k] in order;
    }
    assert ref == base ==> all[0] == ref;
  }

  /** The newest of some witnesses. */
  lemma NewestExists<T>(position: T -> Option<Position>, witnesses: seq<Option<T>>) returns (k: nat)
    requires exists i :: 0 <= i < |witnesses| && witnesses[i].Some?
    ensures k < |witnesses| && NewestAt(position, witnesses, k)
  {
    var n := |witnesses| - 1;
    var shorter := witnesses[..n];
    if j :| 0 <= j < n && witnesses[j].Some? {
      assert shorter[j].Some?;
      k := NewestExists(position, shorter);
      assert forall i :: 0 <= i < n ==> witnesses[i] == shorter[i];
      if witnesses[n].Some? && Before(position(witnesses[k].value), position(witnesses[n].value)) {
        k := n;
      }
    } else {
      k := n;
    }
  }

  /** Without a conflict at the newest position some order succeeds: the newest witness first. */
  lemma CleanTopSucceeds<T>(position: T -> Option<Position>, base: Option<T>, witnesses: seq<Option<T>>)
      returns (order: seq<Option<T>>)
    requires !ConflictAtTop(position, [base] + witnesses)
    ensures multiset(order) == multiset(witnesses)
    ensures FoldAll(position, base, order).Newest?
  {
    var all := [base] + witnesses;
    if forall i :: 0 <= i < |all| ==> all[i].None? {
      order := witnesses;
      assert forall i :: 0 <= i < |witnesses| ==> witnesses[i] == all[i + 1];
      FoldKeepsTop(position, base, order);
    } else {
      var k := NewestExists(position, all);
      forall j | 0 <= j < |all| ensures Dominates(position, all[k], all[j]) {
        assert all[j].Some? && position(all[j].value) == position(all[k].value) ==> NewestAt(position, all, j);
      }
      order := NewestFirst(position, base, witnesses, k);
    }
  }

  /** One element moved to the front. */
  lemma MoveToFront<T>(witnesses: seq<T>, k: nat) returns (rest: seq<T>)
    requires k < |witnesses|
    ensures multiset([witnesses[k]] + rest) == multiset(witnesses)
    ensures forall x :: x in rest ==> x in witnesses
  {
    rest := witnesses[..k] + witnesses[k + 1..];
    assert witnesses == witnesses[..k] + [witnesses[k]] + witnesses[k + 1..];
  }

  lemma NewestFirst<T>(position: T -> Option<Position>, base: Option<T>, witnesses: seq<Option<T>>, k: nat)
      returns (order: seq<Option<T>>)
    requires k <= |witnesses| && DominatesAll(position, ([base] + witnesses)[k], [base] + witnesses)
    ensures multiset(order) == multiset(witnesses)
    ensures FoldAll(position, base, order).Newest?
  {
    var all := [base] + witnesses;
    assert Dominates(position, all[k], all[0]);
    forall x | x in witnesses ensures Dominates(position, all[k], x) {
      var j :| 0 <= j < |witnesses| && witnesses[j] == x;
      assert all[j + 1] == x;
    }
    if k == 0 {
      order := witnesses;
      FoldKeepsTop(position, base, order);
    } else {
      var rest := MoveToFront(witnesses, k - 1);
      order := [witnesses[k - 1]] + rest;
      FirstThenKept(position, base, witnesses[k - 1], rest);
    }
  }

  lemma FirstThenKept<T>(position: T -> Option<Position>, base: Option<T>, top: Option<T>, rest: seq<Option<T>>)
    requires Dominates(position, top, base) && forall x :: x in rest ==> Dominates(position, top, x)
    ensures FoldAll(position, base, [top] + rest).Newest?
  {
    var order := [top] + rest;
    assert order[1..] == rest;
    FoldKeepsTop(position, Advance(position, base, top).ref, rest);
  }
}
