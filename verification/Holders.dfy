/**
 * Counting the holders of a reference: `Cnt(m, f)` is how many keys of m map to f.
 */
module Holders {
  import opened Lists

  function Those(m: map<nat, nat>, f: nat): set<nat> {
    set t | t in m && m[t] == f
  }

  function Cnt(m: map<nat, nat>, f: nat): nat {
    |Those(m, f)|
  }

  lemma CntEmpty(f: nat)
    ensures Cnt(map[], f) == 0
  {
    assert Those(map[], f) == {};
  }

  lemma CntDel(m: map<nat, nat>, t: nat, f: nat)
    ensures Cnt(m - {t}, f) == Cnt(m, f) - if t in m && m[t] == f then 1 else 0
  {
    var a, b := Those(m, f), Those(m - {t}, f);
    if t in m && m[t] == f {
      assert b == a - {t};
    } else {
      assert a == b;
    }
  }

  lemma CntAdd(m: map<nat, nat>, t: nat, g: nat, f: nat)
    requires t !in m
    ensures Cnt(m[t := g], f) == Cnt(m, f) + if g == f then 1 else 0
  {
    assert m[t := g] - {t} == m;
    CntDel(m[t := g], t, f);
  }

  lemma CntMove(m: map<nat, nat>, t: nat, g: nat, f: nat)
    requires t in m
    ensures Cnt(m[t := g], f) == Cnt(m, f) + (if g == f then 1 else 0) - (if m[t] == f then 1 else 0)
  {
    assert (m - {t})[t := g] == m[t := g];
    CntDel(m, t, f);
    CntAdd(m - {t}, t, g, f);
  }

  lemma CntHeld(m: map<nat, nat>, t: nat)
    requires t in m
    ensures Cnt(m, m[t]) >= 1
  {
    CntDel(m, t, m[t]);
  }

  lemma CntTwo(m: map<nat, nat>, t: nat, u: nat)
    requires t in m && u in m && t != u && m[t] == m[u]
    ensures Cnt(m, m[t]) >= 2
  {
    CntDel(m, t, m[t]);
    CntHeld(m - {t}, u);
  }

  lemma CntUnheld(m: map<nat, nat>, f: nat)
    requires forall t :: t in m ==> m[t] != f
    ensures Cnt(m, f) == 0
  {
    assert Those(m, f) == {};
  }

  // ----- A table of shared objects -----

  /**
   * `of` is a pointer field of each task and `count` the reference count of each live object.
   * `copy` is a second pointer that a task may have for a while: to a copy it has not installed, to
   * the object of a child it is building, or to one it is about to put.
   */
  datatype Table = Table(of: map<nat, nat>, copy: map<nat, nat>, count: map<nat, nat>)

  function Fresh(x: Table, t: nat, n: nat): Table {
    x.(copy := x.copy[t := n], count := x.count[n := 1])
  }

  function Swap(x: Table, t: nat): Option<Table> {
    if t !in x.copy then Some(x)
    else if t !in x.of then None
    else Some(x.(of := x.of[t := x.copy[t]], copy := x.copy[t := x.of[t]]))
  }

  /** Drop the pointer in `copy`; the last one frees the object.  None means the object was not live. */
  function Put(x: Table, t: nat): Option<Table> {
    if t !in x.copy then Some(x)
    else
      var f := x.copy[t];
      if f !in x.count || x.count[f] == 0 then None
      else if x.count[f] > 1 then Some(x.(copy := x.copy - {t}, count := x.count[f := x.count[f] - 1]))
      else Some(x.(copy := x.copy - {t}, count := x.count - {f}))
  }

  /** One more pointer to t's own object, or a pointer to a new object n. */
  function Hold(x: Table, t: nat, share: bool, n: nat): Option<Table> {
    if t !in x.of || x.of[t] !in x.count then None
    else if share then Some(x.(copy := x.copy[t := x.of[t]], count := x.count[x.of[t] := x.count[x.of[t]] + 1]))
    else Some(Fresh(x, t, n))
  }

  /** What t had in `copy` becomes c's own. */
  function Give(x: Table, t: nat, c: nat): Option<Table> {
    if t !in x.copy then None else Some(x.(of := x.of[c := x.copy[t]], copy := x.copy - {t}))
  }

  /** t keeps its object only to put it. */
  function Retire(x: Table, t: nat): Option<Table>
    requires t in x.of
  {
    if t in x.copy then None else Some(x.(of := x.of - {t}, copy := x.copy[t := x.of[t]]))
  }

  /** Each count is the number of pointers, and no live object is without one. */
  ghost predicate TableOk(x: Table) {
    && (forall t :: t in x.of ==> x.of[t] in x.count)
    && (forall t :: t in x.copy ==> x.copy[t] in x.count)
    && (forall f :: f in x.count ==> x.count[f] == Cnt(x.of, f) + Cnt(x.copy, f) && x.count[f] > 0)
  }

  /** Counts for an object a task alone refers to. */
  predicate Sole(refs: map<nat, nat>, f: nat) {
    f in refs && refs[f] == 1
  }

  predicate Has(x: Table, t: nat, f: nat) {
    (t in x.of && x.of[t] == f) || (t in x.copy && x.copy[t] == f)
  }

  predicate SameBut(m: map<nat, nat>, m': map<nat, nat>, t: nat, c: nat) {
    && (forall u :: u in m && u != t && u != c ==> u in m' && m'[u] == m[u])
    && (forall u :: u in m' && u != t && u != c ==> u in m)
  }

  /** Between x and y only t's pointers changed (and c's appeared); what others have to themselves they keep. */
  ghost predicate Rest(x: Table, y: Table, t: nat, c: nat) {
    && SameBut(x.of, y.of, t, c) && SameBut(x.copy, y.copy, t, t)
    && forall u, f :: u != t && Has(x, u, f) && Sole(x.count, f) ==> Sole(y.count, f)
  }

  lemma SoleIsMine(x: Table, t: nat, u: nat, f: nat)
    requires TableOk(x) && Sole(x.count, f) && Has(x, u, f) && t != u
    ensures !Has(x, t, f)
  {
    hide Cnt;
    if t in x.of && x.of[t] == f { CntHeld(x.of, t); if u in x.of && x.of[u] == f { CntTwo(x.of, t, u); } }
    if u in x.of && x.of[u] == f { CntHeld(x.of, u); }
    if t in x.copy && x.copy[t] == f { CntHeld(x.copy, t); if u in x.copy && x.copy[u] == f { CntTwo(x.copy, t, u); } }
    if u in x.copy && x.copy[u] == f { CntHeld(x.copy, u); }
  }

  lemma RestSelf(x: Table, t: nat)
    ensures Rest(x, x, t, t)
  {
  }

  lemma RestBy(x: Table, y: Table, t: nat, c: nat, g: nat)
    requires TableOk(x) && (Has(x, t, g) || g !in x.count)
    requires SameBut(x.of, y.of, t, c) && SameBut(x.copy, y.copy, t, t) && SameBut(x.count, y.count, g, g)
    ensures Rest(x, y, t, c)
  {
    hide TableOk, Cnt;
    forall u, f | u != t && Has(x, u, f) && Sole(x.count, f) ensures Sole(y.count, f) { SoleIsMine(x, t, u, f); }
  }

  lemma FreshOk(x: Table, t: nat, n: nat)
    requires TableOk(x) && n !in x.count && t !in x.copy
    ensures TableOk(Fresh(x, t, n)) && Rest(x, Fresh(x, t, n), t, t)
  {
    hide Cnt, Rest;
    var y := Fresh(x, t, n);
    CntUnheld(x.of, n);
    CntUnheld(x.copy, n);
    forall f | f in y.count ensures y.count[f] == Cnt(y.of, f) + Cnt(y.copy, f) { CntAdd(x.copy, t, n, f); }
    RestBy(x, y, t, t, n);
  }

  lemma HoldOk(x: Table, t: nat, share: bool, n: nat)
    requires TableOk(x) && n !in x.count && t !in x.copy && t in x.of
    ensures var y := Hold(x, t, share, n); y.Some? && TableOk(y.value) && Rest(x, y.value, t, t) && y.value.of == x.of
  {
    hide Cnt, Rest;
    if !share {
      FreshOk(x, t, n);
    } else {
      var y := Hold(x, t, share, n).value;
      forall f | f in y.count ensures y.count[f] == Cnt(y.of, f) + Cnt(y.copy, f) { CntAdd(x.copy, t, x.of[t], f); }
      RestBy(x, y, t, t, x.of[t]);
    }
  }

  lemma SwapOk(x: Table, t: nat)
    requires TableOk(x) && t in x.copy && t in x.of
    ensures var y := Swap(x, t); y.Some? && TableOk(y.value) && Rest(x, y.value, t, t)
  {
    hide Cnt;
    var y := Swap(x, t).value;
    forall f | f in y.count ensures y.count[f] == Cnt(y.of, f) + Cnt(y.copy, f) {
      CntMove(x.of, t, x.copy[t], f);
      CntMove(x.copy, t, x.of[t], f);
    }
  }

  lemma PutOk(x: Table, t: nat)
    requires TableOk(x)
    ensures var y := Put(x, t); y.Some? && TableOk(y.value) && Rest(x, y.value, t, t)
    ensures t in x.of && Sole(x.count, x.of[t]) ==> Sole(Put(x, t).value.count, x.of[t])
  {
    hide Cnt, Rest;
    if t !in x.copy {
      RestSelf(x, t);
    } else {
      if t in x.of { CntHeld(x.of, t); }
      var g := x.copy[t];
      var y := Put(x, t).value;
      CntHeld(x.copy, t);
      forall f | f in y.count ensures y.count[f] == Cnt(y.of, f) + Cnt(y.copy, f) && y.count[f] > 0 {
        CntDel(x.copy, t, f);
      }
      forall u | u in y.of ensures y.of[u] in y.count { CntHeld(x.of, u); }
      forall u | u in y.copy ensures y.copy[u] in y.count { if x.copy[u] == g { CntTwo(x.copy, t, u); } }
      RestBy(x, y, t, t, g);
    }
  }

  lemma GiveOk(x: Table, t: nat, c: nat)
    requires TableOk(x) && t in x.copy && c !in x.of && c != t
    ensures var y := Give(x, t, c); y.Some? && TableOk(y.value) && Rest(x, y.value, t, c)
  {
    hide Cnt;
    var y := Give(x, t, c).value;
    forall f | f in y.count ensures y.count[f] == Cnt(y.of, f) + Cnt(y.copy, f) {
      CntAdd(x.of, c, x.copy[t], f);
      CntDel(x.copy, t, f);
    }
  }

  lemma RetireOk(x: Table, t: nat)
    requires TableOk(x) && t in x.of && t !in x.copy
    ensures var y := Retire(x, t); y.Some? && TableOk(y.value) && Rest(x, y.value, t, t)
  {
    hide Cnt;
    var y := Retire(x, t).value;
    forall f | f in y.count ensures y.count[f] == Cnt(y.of, f) + Cnt(y.copy, f) {
      CntDel(x.of, t, f);
      CntAdd(x.copy, t, x.of[t], f);
    }
  }

  /** A copy that nobody else points to is nobody's own object. */
  lemma SoleCopy(x: Table, t: nat, u: nat)
    requires TableOk(x) && t in x.copy && Sole(x.count, x.copy[t]) && u in x.of
    ensures x.of[u] != x.copy[t]
  {
    hide Cnt;
    CntHeld(x.copy, t);
    CntHeld(x.of, u);
  }

  /** One more task c pointing to t's own object. */
  function Join(x: Table, t: nat, c: nat): Option<Table> {
    if t !in x.of || x.of[t] !in x.count then None
    else Some(x.(of := x.of[c := x.of[t]], count := x.count[x.of[t] := x.count[x.of[t]] + 1]))
  }

  lemma JoinOk(x: Table, t: nat, c: nat)
    requires TableOk(x) && t in x.of && c !in x.of && c != t
    ensures var y := Join(x, t, c); y.Some? && TableOk(y.value) && Rest(x, y.value, t, c)
  {
    hide Cnt, Rest;
    var y := Join(x, t, c).value;
    forall f | f in y.count ensures y.count[f] == Cnt(y.of, f) + Cnt(y.copy, f) { CntAdd(x.of, c, x.of[t], f); }
    RestBy(x, y, t, c, x.of[t]);
  }

  /** The copy is freed outright, whatever its count says. */
  function Discard(x: Table, t: nat): Option<Table> {
    if t !in x.copy || x.copy[t] !in x.count then None
    else Some(x.(copy := x.copy - {t}, count := x.count - {x.copy[t]}))
  }

  lemma DiscardIsPut(x: Table, t: nat)
    requires t in x.copy && Sole(x.count, x.copy[t])
    ensures Discard(x, t) == Put(x, t)
  {
  }

  /** t points to a new object n of its own instead, and lets go of the one it had, if any. */
  function Replace(x: Table, t: nat, n: nat): Option<Table> {
    if t !in x.of then Some(x.(of := x.of[t := n], count := x.count[n := 1]))
    else
      var y := Swap(Fresh(x, t, n), t);
      if y.None? then None else Put(y.value, t)
  }

  lemma RestTrans(x: Table, y: Table, z: Table, t: nat)
    requires Rest(x, y, t, t) && Rest(y, z, t, t)
    ensures Rest(x, z, t, t)
  {
    forall u, f | u != t && Has(x, u, f) && Sole(x.count, f) ensures Sole(z.count, f) { assert Has(y, u, f); }
  }

  lemma ReplaceOk(x: Table, t: nat, n: nat)
    requires TableOk(x) && n !in x.count && t !in x.copy
    ensures var y := Replace(x, t, n);
            && y.Some? && TableOk(y.value) && Rest(x, y.value, t, t)
            && y.value.of == x.of[t := n] && y.value.copy == x.copy
    ensures forall u :: u in x.of ==> x.of[u] != n
  {
    hide TableOk, Rest, Cnt;
    assert forall u :: u in x.of ==> x.of[u] != n by { Points(x); }
    if t in x.of {
      FreshOk(x, t, n);
      var y := Fresh(x, t, n);
      SwapOk(y, t);
      var z := Swap(y, t).value;
      PutOk(z, t);
      RestTrans(x, y, z, t);
      RestTrans(x, z, Put(z, t).value, t);
    } else {
      AdoptOk(x, t, n);
    }
  }

  lemma Points(x: Table)
    requires TableOk(x)
    ensures forall u :: u in x.of ==> x.of[u] in x.count
  {
  }

  lemma AdoptOk(x: Table, t: nat, n: nat)
    requires TableOk(x) && n !in x.count && t !in x.of
    ensures var y := x.(of := x.of[t := n], count := x.count[n := 1]); TableOk(y) && Rest(x, y, t, t)
  {
    hide Cnt, Rest;
    var y := x.(of := x.of[t := n], count := x.count[n := 1]);
    CntUnheld(x.of, n);
    CntUnheld(x.copy, n);
    forall f | f in y.count ensures y.count[f] == Cnt(y.of, f) + Cnt(y.copy, f) { CntAdd(x.of, t, n, f); }
    RestBy(x, y, t, t, n);
  }

  /** Nobody else points to an object with a count of one. */
  lemma SoleUser(x: Table, t: nat, u: nat)
    requires TableOk(x) && t in x.of && u in x.of && t != u && Sole(x.count, x.of[t])
    ensures x.of[u] != x.of[t]
  {
    hide Cnt;
    assert Has(x, t, x.of[t]);
    SoleIsMine(x, u, t, x.of[t]);
  }

  /** When no pointer is in `copy`, an object that one task alone points to has a count of one. */
  lemma UserIsSole(x: Table, t: nat)
    requires TableOk(x) && x.copy == map[] && t in x.of && forall u :: u in x.of && u != t ==> x.of[u] != x.of[t]
    ensures Sole(x.count, x.of[t])
  {
    CntEmpty(x.of[t]);
    CntDel(x.of, t, x.of[t]);
    CntUnheld(x.of - {t}, x.of[t]);
  }

  /** t lets go of its own object; the last one to do so frees it. */
  function Leave(x: Table, t: nat): Option<Table>
    requires t in x.of
  {
    var y := Retire(x, t);
    if y.None? then None else Put(y.value, t)
  }

  lemma LeaveOk(x: Table, t: nat)
    requires TableOk(x) && t in x.of && t !in x.copy
    ensures var y := Leave(x, t);
            && y.Some? && TableOk(y.value) && Rest(x, y.value, t, t)
            && y.value.of == x.of - {t} && y.value.copy == x.copy
  {
    hide TableOk, Rest;
    RetireOk(x, t);
    var y := Retire(x, t).value;
    PutOk(y, t);
    RestTrans(x, y, Put(y, t).value, t);
  }

  /** An object is live exactly as long as somebody points to it. */
  lemma LiveIffHeld(x: Table, f: nat)
    requires TableOk(x)
    ensures f in x.count <==> exists t :: Has(x, t, f)
  {
    hide Cnt;
    if f in x.count && forall t :: !Has(x, t, f) {
      forall t | t in x.of ensures x.of[t] != f { assert !Has(x, t, f); }
      forall t | t in x.copy ensures x.copy[t] != f { assert !Has(x, t, f); }
      CntUnheld(x.of, f);
      CntUnheld(x.copy, f);
    }
  }
}
