/** Termination of a process tree (phase2/exceptions.c, termProc and terminateSubtree): the theory
  * of the relation Removed. */
module KernelTerm {
  import opened KernelTypes
  import opened KernelState
  import opened KernelInv
  import ListX

  // ---------------------------------------------------------------- deleting from sequences

  lemma {:induction false} WithoutMembers(q: seq<nat>, S: set<nat>)
    ensures forall x :: x in Without(q, S) <==> x in q && x !in S
    ensures ListX.NoDup(q) ==> ListX.NoDup(Without(q, S))
  {
    if q != [] {
      WithoutMembers(q[1..], S);
      assert q == [q[0]] + q[1..];
      var r := Without(q[1..], S);
      if ListX.NoDup(q) && q[0] !in S {
        assert ListX.NoDup(q[1..]) by { assert forall i :: 0 <= i < |q| - 1 ==> q[1..][i] == q[i + 1]; }
        assert q[0] !in q[1..];
        ConsNoDup(q[0], r);
      } else if ListX.NoDup(q) {
        assert ListX.NoDup(q[1..]) by { assert forall i :: 0 <= i < |q| - 1 ==> q[1..][i] == q[i + 1]; }
        assert [] + r == r;
      }
    }
  }

  lemma ConsNoDup(x: nat, r: seq<nat>)
    requires ListX.NoDup(r) && x !in r
    ensures ListX.NoDup([x] + r)
  {
    var s := [x] + r;
    forall i, j | 0 <= i < |s| && 0 <= j < |s| && s[i] == s[j] ensures i == j {
      if i > 0 { assert r[i - 1] in r; }
      if j > 0 { assert r[j - 1] in r; }
    }
  }

  lemma {:induction false} WithoutTwice(q: seq<nat>, S: set<nat>, T: set<nat>)
    ensures Without(Without(q, S), T) == Without(q, S + T)
  {
    if q != [] {
      WithoutTwice(q[1..], S, T);
      var r := Without(q[1..], S);
      if q[0] !in S {
        assert ([q[0]] + r)[1..] == r;
      } else {
        assert [] + r == r;
      }
    }
  }

  lemma {:induction false} WithoutPrefix(q: seq<nat>, S: set<nat>, i: nat)
    requires i <= |q|
    requires forall j :: 0 <= j < i ==> q[j] in S
    requires forall j :: i <= j < |q| ==> q[j] !in S
    ensures Without(q, S) == q[i..]
    decreases |q|
  {
    if q != [] {
      if i > 0 {
        WithoutPrefix(q[1..], S, i - 1);
        assert q[1..][i - 1..] == q[i..];
      } else {
        WithoutPrefix(q[1..], S, 0);
        assert q[1..][0..] == q[1..];
      }
    }
  }

  lemma {:induction false} WithoutOne(q: seq<nat>, i: nat)
    requires ListX.NoDup(q) && i < |q|
    ensures Without(q, {q[i]}) == q[..i] + q[i + 1..]
  {
    if i == 0 {
      assert forall j :: 0 < j < |q| ==> q[j] !in {q[0]};
      WithoutPrefix(q, {q[0]}, 1);
    } else {
      assert forall j :: 0 <= j < |q| - 1 ==> q[1..][j] == q[j + 1];
      WithoutOne(q[1..], i - 1);
      assert q[0] != q[i];
      assert [q[0]] + (q[1..][..i - 1] + q[1..][i..]) == q[..i] + q[i + 1..];
    }
  }

  lemma WithoutNone(q: seq<nat>, S: set<nat>)
    requires forall x :: x in q ==> x !in S
    ensures Without(q, S) == q
  {
    assert forall j :: 0 <= j < |q| ==> q[j] in q;
    WithoutPrefix(q, S, 0);
  }

  lemma WithoutAllTwice(b: map<Key, seq<nat>>, S: set<nat>, T: set<nat>)
    ensures WithoutAll(WithoutAll(b, S), T) == WithoutAll(b, S + T)
  {
    forall key | key in b
      ensures key in WithoutAll(WithoutAll(b, S), T) <==> key in WithoutAll(b, S + T)
      ensures key in WithoutAll(b, S + T) ==> WithoutAll(WithoutAll(b, S), T)[key] == WithoutAll(b, S + T)[key]
    {
      WithoutTwice(b[key], S, T);
    }
  }

  lemma {:induction false} SizeOfElements(q: seq<nat>, S: set<nat>)
    requires ListX.NoDup(q) && forall x :: x in q <==> x in S
    ensures |q| == |S|
  {
    if q != [] {
      assert forall i :: 0 <= i < |q| - 1 ==> q[1..][i] == q[i + 1];
      assert forall x :: x in q ==> x == q[0] || x in q[1..];
      assert q[0] in S && q[0] !in q[1..];
      SizeOfElements(q[1..], S - {q[0]});
    } else {
      assert S == {};
    }
  }

  ghost function Among(q: seq<nat>, S: set<nat>): set<nat> {
    set p | p in q && p in S
  }

  lemma {:induction false} WithoutSize(q: seq<nat>, S: set<nat>)
    requires ListX.NoDup(q)
    ensures |Without(q, S)| + |Among(q, S)| == |q|
  {
    if q == [] {
      assert Among(q, S) == {};
    } else {
      var r := q[1..];
      assert forall i :: 0 <= i < |r| ==> r[i] == q[i + 1];
      WithoutSize(r, S);
      assert q == [q[0]] + r && q[0] !in r;
      assert Among(q, S) == if q[0] in S then Among(r, S) + {q[0]} else Among(r, S);
    }
  }

  // ---------------------------------------------------------------- subtrees

  ghost predicate PidsUp(pcb: seq<Pcb>) {
    forall c :: 0 <= c < |pcb| && pcb[c].parent.Some? ==>
      pcb[c].parent.value < |pcb| && 0 <= pcb[pcb[c].parent.value].pid < pcb[c].pid
  }

  lemma PidsUpFrom(k: K)
    requires Shape(k) && PidsOk(k)
    ensures PidsUp(k.pcb)
  {
  }

  lemma InvPidsUp(k: K)
    requires Inv(k)
    ensures Shape(k) && TreeOk(k) && PidsOk(k) && PidsUp(k.pcb)
  {
    var loc: seq<Place> :| InvAt(k, loc);
    assert TreeOk(k) && PidsOk(k);
    PidsUpFrom(k);
  }

  lemma {:induction false} UnderPid(pcb: seq<Pcb>, a: nat, d: nat)
    requires Under(pcb, a, d) && a < |pcb|
    ensures d < |pcb|
    ensures d != a ==> pcb[a].pid < pcb[d].pid
    decreases if d < |pcb| && pcb[d].pid >= 0 then pcb[d].pid else 0
  {
    if d != a {
      UnderPid(pcb, a, pcb[d].parent.value);
    }
  }

  lemma InOwnSubtree(k: K, p: nat)
    requires p < MAXPROC
    ensures p in Subtree(k, p)
  {
    assert Under(k.pcb, p, p);
  }

  /** A proper descendant descends from one of the children ... */
  lemma {:induction false} UnderBranch(pcb: seq<Pcb>, p: nat, d: nat) returns (c: nat)
    requires Under(pcb, p, d) && d != p && PidsUp(pcb)
    ensures c < |pcb| && pcb[c].parent == Some(p) && Under(pcb, c, d)
    decreases pcb[d].pid
  {
    var q := pcb[d].parent.value;
    if q == p {
      c := d;
    } else {
      c := UnderBranch(pcb, p, q);
    }
  }

  /** ... and every descendant of a child is one. */
  lemma {:induction false} UnderChild(pcb: seq<Pcb>, p: nat, c: nat, d: nat)
    requires PidsUp(pcb) && c < |pcb| && pcb[c].parent == Some(p) && Under(pcb, c, d)
    ensures Under(pcb, p, d) && d != p
    decreases if d < |pcb| && pcb[d].pid >= 0 then pcb[d].pid else 0
  {
    UnderPid(pcb, c, d);
    if d != c {
      UnderChild(pcb, p, c, pcb[d].parent.value);
    } else {
      assert Under(pcb, p, p);
    }
  }

  /** ... of that child only. */
  lemma {:induction false} UnderUnique(pcb: seq<Pcb>, p: nat, c: nat, c': nat, d: nat)
    requires PidsUp(pcb) && c < |pcb| && c' < |pcb| && pcb[c].parent == Some(p) == pcb[c'].parent
    requires Under(pcb, c, d) && Under(pcb, c', d)
    ensures c == c'
    decreases if d < |pcb| && pcb[d].pid >= 0 then pcb[d].pid else 0
  {
    if c != c' {
      if d == c {
        UnderPid(pcb, c', p);
      } else if d == c' {
        UnderPid(pcb, c, p);
      } else {
        UnderUnique(pcb, p, c, c', pcb[d].parent.value);
      }
    }
  }

  /** Cutting parents elsewhere does not change a subtree. */
  lemma {:induction false} UnderFrame(pcb: seq<Pcb>, pcb': seq<Pcb>, a: nat, d: nat)
    requires |pcb'| == |pcb| && PidsUp(pcb) && a < |pcb|
    requires forall m :: 0 <= m < |pcb| ==>
      pcb'[m].pid == pcb[m].pid && (pcb'[m].parent == pcb[m].parent || pcb'[m].parent == None)
    requires forall m :: 0 <= m < |pcb| && m != a && Under(pcb, a, m) ==> pcb'[m].parent == pcb[m].parent
    ensures Under(pcb', a, d) <==> Under(pcb, a, d)
    decreases if d < |pcb| && pcb[d].pid >= 0 then pcb[d].pid else 0
  {
    if d != a && d < |pcb| && pcb[d].parent.Some? {
      UnderFrame(pcb, pcb', a, pcb[d].parent.value);
    }
  }

  ghost predicate UnderAny(pcb: seq<Pcb>, cs: seq<nat>, d: nat) {
    exists c :: c in cs && Under(pcb, c, d)
  }

  /** The listed processes with their descendants. */
  ghost function Branches(k: K, cs: seq<nat>): set<nat> {
    set d: nat | d < MAXPROC && UnderAny(k.pcb, cs, d)
  }

  lemma UnderSomeChild(pcb: seq<Pcb>, cs: seq<nat>, p: nat, d: nat)
    requires PidsUp(pcb) && Siblings(cs, pcb, p)
    requires forall c :: 0 <= c < |pcb| && pcb[c].parent == Some(p) ==> c in cs
    ensures UnderAny(pcb, cs, d) <==> Under(pcb, p, d) && d != p
  {
    if UnderAny(pcb, cs, d) {
      var c :| c in cs && Under(pcb, c, d);
      UnderChild(pcb, p, c, d);
    }
    if Under(pcb, p, d) && d != p {
      var c := UnderBranch(pcb, p, d);
    }
  }

  lemma KnownChildren(k: K, p: nat)
    requires Inv(k) && p < MAXPROC
    ensures Shape(k) && PidsUp(k.pcb) && Siblings(k.children[p], k.pcb, p)
    ensures forall c :: 0 <= c < MAXPROC && k.pcb[c].parent == Some(p) ==> c in k.children[p]
  {
    InvPidsUp(k);
    var cs := k.children[p];
  }

  lemma BranchesAre(k: K, p: nat, cs: seq<nat>)
    requires forall d: nat :: UnderAny(k.pcb, cs, d) <==> Under(k.pcb, p, d) && d != p
    ensures Branches(k, cs) == Subtree(k, p) - {p}
  {
  }

  lemma BranchesOfChildren(k: K, p: nat)
    requires Inv(k) && p < MAXPROC && Shape(k)
    ensures Branches(k, k.children[p]) == Subtree(k, p) - {p}
  {
    KnownChildren(k, p);
    forall d: nat ensures UnderAny(k.pcb, k.children[p], d) <==> Under(k.pcb, p, d) && d != p {
      UnderSomeChild(k.pcb, k.children[p], p, d);
    }
    BranchesAre(k, p, k.children[p]);
  }

  lemma ChildNotDone(pcb: seq<Pcb>, cs: seq<nat>, p: nat, i: nat, j: nat)
    requires PidsUp(pcb) && Siblings(cs, pcb, p) && i <= |cs| && j < |cs|
    ensures UnderAny(pcb, cs[..i], cs[j]) <==> j < i
  {
    assert cs[j] in cs;
    if j < i {
      assert cs[..i][j] in cs[..i] && Under(pcb, cs[j], cs[j]);
    }
    if UnderAny(pcb, cs[..i], cs[j]) {
      var c :| c in cs[..i] && Under(pcb, c, cs[j]);
      var h :| 0 <= h < i && cs[..i][h] == c;
      assert cs[h] in cs && Under(pcb, cs[j], cs[j]);
      UnderUnique(pcb, p, cs[h], cs[j], cs[j]);
    }
  }

  /** Children already done are in the done part, the others are not. */
  lemma BranchSplit(k: K, p: nat, i: nat)
    requires Inv(k) && p < MAXPROC && Shape(k) && i <= |k.children[p]|
    ensures Without(k.children[p], Branches(k, k.children[p][..i])) == k.children[p][i..]
    ensures Branches(k, k.children[p][..i]) <= Subtree(k, p) - {p}
  {
    InvPidsUp(k);
    var cs := k.children[p];
    assert Siblings(cs, k.pcb, p);
    forall j | 0 <= j < |cs| ensures cs[j] in Branches(k, cs[..i]) <==> j < i {
      ChildNotDone(k.pcb, cs, p, i, j);
      assert cs[j] in cs;
    }
    WithoutPrefix(cs, Branches(k, cs[..i]), i);
    forall d: nat | d < MAXPROC && UnderAny(k.pcb, cs[..i], d) ensures UnderAny(k.pcb, cs, d) {
      var c :| c in cs[..i] && Under(k.pcb, c, d);
      assert c in cs;
    }
    BranchesOfChildren(k, p);
  }

  lemma BranchNext(pcb: seq<Pcb>, cs: seq<nat>, p: nat, i: nat, d: nat)
    requires PidsUp(pcb) && Siblings(cs, pcb, p) && i < |cs|
    ensures UnderAny(pcb, cs[..i + 1], d) <==> UnderAny(pcb, cs[..i], d) || Under(pcb, cs[i], d)
    ensures !(UnderAny(pcb, cs[..i], d) && Under(pcb, cs[i], d))
    ensures Under(pcb, cs[i], d) ==> Under(pcb, p, d) && d != p
  {
    assert cs[..i + 1] == cs[..i] + [cs[i]];
    assert cs[i] in cs;
    if UnderAny(pcb, cs[..i], d) && Under(pcb, cs[i], d) {
      var c :| c in cs[..i] && Under(pcb, c, d);
      var h :| 0 <= h < i && cs[..i][h] == c;
      assert cs[h] in cs;
      UnderUnique(pcb, p, cs[h], cs[i], d);
    }
    if Under(pcb, cs[i], d) {
      UnderChild(pcb, p, cs[i], d);
    }
  }

  lemma BranchStep(k: K, p: nat, i: nat)
    requires Inv(k) && p < MAXPROC && Shape(k) && i < |k.children[p]|
    ensures Branches(k, k.children[p][..i + 1]) == Branches(k, k.children[p][..i]) + Subtree(k, k.children[p][i])
    ensures Branches(k, k.children[p][..i]) !! Subtree(k, k.children[p][i])
    ensures k.children[p][i] in Subtree(k, p)
    ensures Subtree(k, k.children[p][i]) <= Subtree(k, p) - {p}
  {
    hide Inv;
    KnownChildren(k, p);
    var pcb, cs := k.pcb, k.children[p];
    assert cs[i] in cs;
    forall d: nat
      ensures UnderAny(pcb, cs[..i + 1], d) <==> UnderAny(pcb, cs[..i], d) || Under(pcb, cs[i], d)
      ensures !(UnderAny(pcb, cs[..i], d) && Under(pcb, cs[i], d))
      ensures Under(pcb, cs[i], d) ==> Under(pcb, p, d) && d != p
    {
      BranchNext(pcb, cs, p, i, d);
    }
    assert Under(pcb, cs[i], cs[i]);
  }

  /** Descendants of descendants. */
  lemma SubtreeClosed(k: K, p: nat, m: nat, c: nat)
    requires Inv(k) && Shape(k) && p < MAXPROC && m in Subtree(k, p)
    requires c < MAXPROC && k.pcb[c].parent == Some(m)
    ensures c in Subtree(k, p) && c != p
  {
    hide Inv, TreeOk;
    InvPidsUp(k);
    assert k.pcb[m].pid < k.pcb[c].pid;
    UnderNext(k.pcb, p, m, c);
  }

  lemma UnderNext(pcb: seq<Pcb>, a: nat, d: nat, c: nat)
    requires Under(pcb, a, d) && a < |pcb| && d < |pcb| && c < |pcb|
    requires pcb[c].parent == Some(d) && 0 <= pcb[d].pid < pcb[c].pid
    ensures Under(pcb, a, c) && c != a
  {
    UnderPid(pcb, a, d);
  }

  lemma BranchesClosed(k: K, p: nat, i: nat, m: nat, c: nat)
    requires Inv(k) && p < MAXPROC && Shape(k) && i <= |k.children[p]|
    requires m in Branches(k, k.children[p][..i]) && c < MAXPROC && k.pcb[c].parent == Some(m)
    ensures c in Branches(k, k.children[p][..i])
  {
    InvPidsUp(k);
    var cs := k.children[p];
    var b :| b in cs[..i] && Under(k.pcb, b, m);
    assert b in cs && Siblings(cs, k.pcb, p);
    SubtreeClosed(k, b, m, c);
  }

  // ---------------------------------------------------------------- composing removals

  lemma RemovedNothing(k: K, cpu: nat)
    requires Inv(k) && Shape(k)
    ensures Removed(k, cpu, {}, {}, k)
  {
    var loc: seq<Place> :| InvAt(k, loc);
    assert Freed(k, {}) == {};
    assert FreedOnto(k, {}, [], k.free);
    WithoutNone(k.ready, {});
    forall key | key in k.blocked ensures Without(k.blocked[key], {}) == k.blocked[key] {
      WithoutNone(k.blocked[key], {});
    }
    forall key ensures Charged(k.pcb, {}, key) == {} {
    }
    forall m | 0 <= m < MAXPROC ensures Without(k.children[m], {}) == k.children[m] {
      WithoutNone(k.children[m], {});
    }
    assert WithoutAll(k.blocked, {}) == k.blocked;
  }

  lemma FreedAfter(k: K, cpu: nat, S: set<nat>, D: set<nat>, k1: K, T: set<nat>)
    requires Shape(k) && Removed(k, cpu, S, D, k1) && S !! T
    ensures Freed(k1, T) == Freed(k, T)
    ensures forall key :: Charged(k1.pcb, T, key) == Charged(k.pcb, T, key)
  {
    WithoutMembers(k.ready, S);
  }

  lemma FreedUnion(k: K, S: set<nat>, T: set<nat>)
    requires Shape(k) && S !! T
    ensures Freed(k, S + T) == Freed(k, S) + Freed(k, T) && Freed(k, S) !! Freed(k, T)
    ensures |Freed(k, S + T)| == |Freed(k, S)| + |Freed(k, T)|
    ensures forall key :: |Charged(k.pcb, S + T, key)| == |Charged(k.pcb, S, key)| + |Charged(k.pcb, T, key)|
  {
    assert Freed(k, S + T) == Freed(k, S) + Freed(k, T);
    forall key ensures |Charged(k.pcb, S + T, key)| == |Charged(k.pcb, S, key)| + |Charged(k.pcb, T, key)| {
      assert Charged(k.pcb, S + T, key) == Charged(k.pcb, S, key) + Charged(k.pcb, T, key);
    }
  }

  lemma FreedOntoTwice(k: K, S: set<nat>, fs: seq<nat>, free1: seq<nat>, k1: K, T: set<nat>, gs: seq<nat>,
                       free2: seq<nat>)
    requires Shape(k) && Shape(k1) && S !! T
    requires FreedOnto(k, S, fs, free1) && k1.free == free1 && FreedOnto(k1, T, gs, free2)
    requires Freed(k1, T) == Freed(k, T)
    ensures FreedOnto(k, S + T, gs + fs, free2)
  {
    hide Freed;
    FreedUnion(k, S, T);
    var hs := gs + fs;
    assert forall m :: m in hs <==> m in gs || m in fs;
    forall i, j | 0 <= i < |hs| && 0 <= j < |hs| && hs[i] == hs[j] ensures i == j {
      if i < |gs| { assert gs[i] in gs; } else { assert fs[i - |gs|] in fs; }
      if j < |gs| { assert gs[j] in gs; } else { assert fs[j - |gs|] in fs; }
    }
    assert gs + (fs + k.free) == hs + k.free;
  }

  /** Removals of disjoint sets compose into the removal of the union. */
  lemma RemovedTwice(k: K, cpu: nat, S: set<nat>, D: set<nat>, k1: K, T: set<nat>, E: set<nat>, k2: K)
    requires Shape(k) && S !! T
    requires Removed(k, cpu, S, D, k1) && Removed(k1, cpu, T, E, k2)
    ensures Removed(k, cpu, S + T, D + E, k2)
  {
    FreedAfter(k, cpu, S, D, k1, T);
    FreedUnion(k, S, T);
    WithoutTwice(k.ready, S, T);
    WithoutAllTwice(k.blocked, S, T);
    var fs :| FreedOnto(k, S, fs, k1.free);
    var gs :| FreedOnto(k1, T, gs, k2.free);
    FreedOntoTwice(k, S, fs, k1.free, k1, T, gs, k2.free);
    forall m | 0 <= m < MAXPROC ensures k2.children[m] == Without(k.children[m], D + E) {
      WithoutTwice(k.children[m], D, E);
    }
  }

  // ---------------------------------------------------------------- removals keep the invariant

  ghost function FreedLoc(k: K, S: set<nat>, loc: seq<Place>): seq<Place>
    requires |k.pcb| == MAXPROC
  {
    seq(|loc|, p requires 0 <= p < |loc| => if p in Freed(k, S) then InFree else loc[p])
  }

  /** The members of S may be terminated: none is free, and the guard holds. */
  ghost predicate Removable(k: K, cpu: nat, S: set<nat>, D: set<nat>)
    requires Shape(k)
  {
    && Guarded(k, cpu, S)
    && (forall m :: m in S ==> m < MAXPROC && m !in k.free)
    && Freed(k, S) <= D
    && (forall c :: 0 <= c < MAXPROC && k.pcb[c].parent.Some? && k.pcb[c].parent.value in Freed(k, S) ==> c in D)
  }

  lemma RemovedHolds(k: K, cpu: nat, S: set<nat>, D: set<nat>, loc: seq<Place>, q: seq<nat>, place: Place)
    requires InvAt(k, loc) && Removable(k, cpu, S, D)
    requires place == InReady || place.InQueue?
    requires place.InQueue? ==> place.key in k.blocked
    requires q == if place == InReady then k.ready else k.blocked[place.key]
    ensures Holds(Without(q, S), FreedLoc(k, S, loc), place)
  {
    WithoutMembers(q, S);
    assert Holds(q, loc, place);
    var loc' := FreedLoc(k, S, loc);
    forall p | p in q && p in S ensures p in Freed(k, S) {
      assert loc[p] == place;
    }
  }

  lemma RemovedHoldsFree(k: K, cpu: nat, S: set<nat>, D: set<nat>, loc: seq<Place>, fs: seq<nat>, free: seq<nat>)
    requires InvAt(k, loc) && Removable(k, cpu, S, D)
    requires FreedOnto(k, S, fs, free)
    ensures Holds(free, FreedLoc(k, S, loc), InFree)
    ensures |free| == |k.free| + |Freed(k, S)|
  {
    SizeOfElements(fs, Freed(k, S));
    forall i, j | 0 <= i < |free| && 0 <= j < |free| && free[i] == free[j] ensures i == j {
      if i < |fs| { assert fs[i] in fs; } else { assert k.free[i - |fs|] in k.free; }
      if j < |fs| { assert fs[j] in fs; } else { assert k.free[j - |fs|] in k.free; }
    }
    assert forall p :: p in free <==> p in fs || p in k.free;
  }

  lemma RemovedPlaced(k: K, cpu: nat, S: set<nat>, D: set<nat>, k': K, loc: seq<Place>)
    requires InvAt(k, loc) && Removable(k, cpu, S, D)
    requires Removed(k, cpu, S, D, k')
    ensures Placed(k', FreedLoc(k, S, loc))
    ensures k'.count == MAXPROC - |k'.free|
  {
    var loc' := FreedLoc(k, S, loc);
    var fs :| FreedOnto(k, S, fs, k'.free);
    RemovedHoldsFree(k, cpu, S, D, loc, fs, k'.free);
    RemovedHolds(k, cpu, S, D, loc, k.ready, InReady);
    forall key | key in k'.blocked ensures Holds(k'.blocked[key], loc', InQueue(key)) {
      RemovedHolds(k, cpu, S, D, loc, k.blocked[key], InQueue(key));
    }
    forall p | 0 <= p < MAXPROC && loc'[p].InQueue? ensures loc'[p].key in k'.blocked {
      var key := loc[p].key;
      assert key in k.blocked;
      RemovedHolds(k, cpu, S, D, loc, k.blocked[key], InQueue(key));
      assert p in Without(k.blocked[key], S);
    }
    RemovedSlots(k, cpu, S, D, k', loc);
  }

  lemma RemovedSlots(k: K, cpu: nat, S: set<nat>, D: set<nat>, k': K, loc: seq<Place>)
    requires InvAt(k, loc) && Removable(k, cpu, S, D)
    requires Removed(k, cpu, S, D, k')
    ensures var loc' := FreedLoc(k, S, loc);
            && (forall c :: 0 <= c < NCPU && k'.running[c].Some? ==>
                  k'.running[c].value < MAXPROC && loc'[k'.running[c].value] == OnCpu(c))
            && (forall p :: 0 <= p < MAXPROC && loc'[p].OnCpu? ==> loc'[p].c < NCPU && k'.running[loc'[p].c] == Some(p))
  {
    var loc' := FreedLoc(k, S, loc);
    forall c | 0 <= c < NCPU && k'.running[c].Some?
      ensures k'.running[c].value < MAXPROC && loc'[k'.running[c].value] == OnCpu(c)
    {
      var p := k.running[c].value;
      assert loc[p] == OnCpu(c);
      assert p !in k.ready;
      assert c != cpu && p in S ==> k.pcb[p].semAdd.None?;
    }
  }

  lemma RemovedQueues(k: K, cpu: nat, S: set<nat>, D: set<nat>, k': K, loc: seq<Place>)
    requires InvAt(k, loc) && Removed(k, cpu, S, D, k')
    ensures QueuesOk(k')
  {
    forall key | key in k'.blocked
      ensures k'.blocked[key] != [] && forall p :: p in k'.blocked[key] ==> p < MAXPROC && k'.pcb[p].semAdd == Some(key)
    {
      WithoutMembers(k.blocked[key], S);
    }
  }

  lemma RemovedTree(k: K, cpu: nat, S: set<nat>, D: set<nat>, k': K, loc: seq<Place>)
    requires InvAt(k, loc) && Removed(k, cpu, S, D, k')
    ensures TreeOk(k')
  {
    forall p: nat | p < MAXPROC ensures Siblings(k'.children[p], k'.pcb, p) {
      assert Siblings(k.children[p], k.pcb, p);
      WithoutMembers(k.children[p], D);
    }
    forall c | 0 <= c < MAXPROC && k'.pcb[c].parent.Some?
      ensures k'.pcb[c].parent.value < MAXPROC && c in k'.children[k'.pcb[c].parent.value]
    {
      WithoutMembers(k.children[k.pcb[c].parent.value], D);
    }
  }

  lemma RemovedPids(k: K, cpu: nat, S: set<nat>, D: set<nat>, k': K, loc: seq<Place>)
    requires InvAt(k, loc) && Removable(k, cpu, S, D) && Removed(k, cpu, S, D, k')
    ensures PidsOk(k')
  {
    hide Placed, QueuesOk, TreeOk;
    var fs :| FreedOnto(k, S, fs, k'.free);
    assert forall p :: p in k'.free <==> p in fs || p in k.free;
  }

  /** Terminating a set of processes, with the guard, keeps the whole invariant. */
  lemma RemovedKeepsInv(k: K, cpu: nat, S: set<nat>, D: set<nat>, k': K)
    requires Inv(k) && Shape(k) && Removable(k, cpu, S, D) && Removed(k, cpu, S, D, k')
    ensures Inv(k')
  {
    var loc: seq<Place> :| InvAt(k, loc);
    RemovedPlaced(k, cpu, S, D, k', loc);
    RemovedQueues(k, cpu, S, D, k', loc);
    RemovedTree(k, cpu, S, D, k', loc);
    RemovedPids(k, cpu, S, D, k', loc);
    assert InvAt(k', FreedLoc(k, S, loc));
  }

  // ---------------------------------------------------------------- the subtree of a live process

  lemma SubtreeLive(k: K, p: nat)
    requires Inv(k) && p < MAXPROC && p !in k.free
    ensures forall m :: m in Subtree(k, p) ==> m < MAXPROC && m !in k.free
  {
    var loc: seq<Place> :| InvAt(k, loc);
  }

  lemma SubtreeRemovable(k: K, cpu: nat, p: nat)
    requires Inv(k) && Shape(k) && p < MAXPROC && p !in k.free
    requires Guarded(k, cpu, Subtree(k, p))
    ensures Removable(k, cpu, Subtree(k, p), Detached(k, p))
  {
    SubtreeLive(k, p);
    forall c | 0 <= c < MAXPROC && k.pcb[c].parent.Some? && k.pcb[c].parent.value in Freed(k, Subtree(k, p))
      ensures c in Detached(k, p)
    {
      SubtreeClosed(k, p, k.pcb[c].parent.value, c);
    }
  }

  lemma BranchesRemovable(k: K, cpu: nat, p: nat, i: nat, D: set<nat>)
    requires Inv(k) && Shape(k) && p < MAXPROC && p !in k.free && i <= |k.children[p]|
    requires Guarded(k, cpu, Branches(k, k.children[p][..i])) && Branches(k, k.children[p][..i]) <= D
    ensures Removable(k, cpu, Branches(k, k.children[p][..i]), D)
  {
    var S := Branches(k, k.children[p][..i]);
    SubtreeLive(k, p);
    BranchSplit(k, p, i);
    forall c | 0 <= c < MAXPROC && k.pcb[c].parent.Some? && k.pcb[c].parent.value in Freed(k, S)
      ensures c in D
    {
      BranchesClosed(k, p, i, k.pcb[c].parent.value, c);
    }
  }

  // ---------------------------------------------------------------- one process at a time

  /** removeChild: the first child c of p is cut loose. */
  function CutFirstChild(k: K, p: nat): K
    requires p < |k.children| && k.children[p] != [] && k.children[p][0] < |k.pcb|
  {
    var c := k.children[p][0];
    k.(children := k.children[p := k.children[p][1..]], pcb := k.pcb[c := k.pcb[c].(parent := None)])
  }

  lemma CutIsRemoval(k: K, cpu: nat, p: nat)
    requires Inv(k) && Shape(k) && p < MAXPROC && k.children[p] != [] && k.children[p][0] < MAXPROC
    ensures Removed(k, cpu, {}, {k.children[p][0]}, CutFirstChild(k, p))
  {
    var loc: seq<Place> :| InvAt(k, loc);
    var c, k' := k.children[p][0], CutFirstChild(k, p);
    RemovedNothing(k, cpu);
    assert Siblings(k.children[p], k.pcb, p) && c in k.children[p];
    forall m | 0 <= m < MAXPROC ensures k'.children[m] == Without(k.children[m], {c}) {
      if m == p {
        WithoutOne(k.children[p], 0);
        assert k.children[p][..0] + k.children[p][1..] == k.children[p][1..];
      } else {
        assert Siblings(k.children[m], k.pcb, m);
        WithoutNone(k.children[m], {c});
      }
    }
    assert FreedOnto(k, {}, [], k'.free) by { assert Freed(k, {}) == {}; }
  }

  /** The part of terminateSubtree after the loop over the children. */
  ghost function Reap(k: K, cpu: nat, p: nat): K
    requires Bounded(k) && cpu < NCPU && p < MAXPROC
    requires k.pcb[p].parent.Some? ==> k.pcb[p].parent.value < MAXPROC
  {
    var at := k.pcb[p].semAdd;
    if at.None? && p !in k.ready then k
    else
      var k1 := LeaveQueues(k, p);
      var k2 := k1.(count := k.count - 1);
      var k3 := OutChild(k2, p);
      var k4 := if k.running[cpu] == Some(p) then k3.(running := k3.running[cpu := None]) else k3;
      k4.(free := [p] + k4.free)
  }

  /** p leaves the ready queue, or the queue of its semaphore, which is signalled either way. */
  ghost function LeaveQueues(k: K, p: nat): K
    requires p < |k.pcb|
  {
    var at := k.pcb[p].semAdd;
    if at.None? then k.(ready := Without(k.ready, {p}))
    else Add(k.(blocked := OutBlocked(k.blocked, at.value, p)), at.value, 1)
  }

  /** outBlocked: p leaves the queue of its semaphore, if it is there. */
  ghost function OutBlocked(blocked: map<Key, seq<nat>>, key: Key, p: nat): map<Key, seq<nat>> {
    if key !in blocked then blocked
    else if Without(blocked[key], {p}) == [] then blocked - {key}
    else blocked[key := Without(blocked[key], {p})]
  }

  ghost function OutChild(k: K, p: nat): K
    requires p < |k.pcb| && (k.pcb[p].parent.Some? ==> k.pcb[p].parent.value < |k.children|)
  {
    match k.pcb[p].parent
    case None => k
    case Some(u) =>
      k.(children := k.children[u := Without(k.children[u], {p})], pcb := k.pcb[p := k.pcb[p].(parent := None)])
  }

  lemma OutBlockedIsWithoutAll(k: K, loc: seq<Place>, p: nat)
    requires InvAt(k, loc) && p < MAXPROC
    ensures k.pcb[p].semAdd.Some? ==> OutBlocked(k.blocked, k.pcb[p].semAdd.value, p) == WithoutAll(k.blocked, {p})
    ensures k.pcb[p].semAdd.None? ==> k.blocked == WithoutAll(k.blocked, {p})
  {
    hide TreeOk, PidsOk;
    forall key | key in k.blocked && k.pcb[p].semAdd != Some(key)
      ensures Without(k.blocked[key], {p}) == k.blocked[key] && k.blocked[key] != []
    {
      WithoutNone(k.blocked[key], {p});
    }
  }

  lemma OutChildIsDetaching(k: K, loc: seq<Place>, p: nat)
    requires InvAt(k, loc) && p < MAXPROC
    ensures var k' := OutChild(k, p);
            && |k'.pcb| == MAXPROC && |k'.children| == MAXPROC
            && (forall m :: 0 <= m < MAXPROC ==> k'.pcb[m] == if m in {p} then k.pcb[m].(parent := None) else k.pcb[m])
            && (forall m :: 0 <= m < MAXPROC ==> k'.children[m] == Without(k.children[m], {p}))
  {
    forall m | 0 <= m < MAXPROC && k.pcb[p].parent != Some(m) ensures Without(k.children[m], {p}) == k.children[m] {
      assert Siblings(k.children[m], k.pcb, m);
      WithoutNone(k.children[m], {p});
    }
  }

  lemma ReapFrees(k: K, cpu: nat, p: nat)
    requires Inv(k) && Bounded(k) && cpu < NCPU && p < MAXPROC && Guarded(k, cpu, {p})
    requires k.pcb[p].parent.Some? ==> k.pcb[p].parent.value < MAXPROC
    requires k.pcb[p].semAdd.Some? || p in k.ready
    ensures var k' := Reap(k, cpu, p);
            && Freed(k, {p}) == {p}
            && FreedOnto(k, {p}, [p], k'.free)
            && k'.ready == Without(k.ready, {p})
            && k'.blocked == WithoutAll(k.blocked, {p})
            && |k'.running| == NCPU
            && (forall c :: 0 <= c < NCPU ==>
              k'.running[c] ==
                if c == cpu && k.running[c].Some? && k.running[c].value in {p} then None else k.running[c])
  {
    var loc: seq<Place> :| InvAt(k, loc);
    assert Freed(k, {p}) == {p};
    OutBlockedIsWithoutAll(k, loc, p);
    if k.pcb[p].semAdd.Some? {
      WithoutNone(k.ready, {p});
    }
  }

  lemma ReapSignals(k: K, cpu: nat, p: nat, key: Key)
    requires Inv(k) && Bounded(k) && cpu < NCPU && p < MAXPROC
    requires k.pcb[p].parent.Some? ==> k.pcb[p].parent.value < MAXPROC
    requires k.pcb[p].semAdd.Some? || p in k.ready
    ensures Get(Reap(k, cpu, p).val, key) == Get(k.val, key) + |Charged(k.pcb, {p}, key)|
  {
    assert Charged(k.pcb, {p}, key) == if k.pcb[p].semAdd == Some(key) then {p} else {};
  }

  lemma ReapDetaches(k: K, cpu: nat, p: nat)
    requires Inv(k) && Bounded(k) && cpu < NCPU && p < MAXPROC
    requires k.pcb[p].parent.Some? ==> k.pcb[p].parent.value < MAXPROC
    requires k.pcb[p].semAdd.Some? || p in k.ready
    ensures var k' := Reap(k, cpu, p);
            && k'.count == k.count - 1 && k'.nextPid == k.nextPid
            && |k'.pcb| == MAXPROC && |k'.children| == MAXPROC
            && (forall m :: 0 <= m < MAXPROC ==> k'.pcb[m] == if m in {p} then k.pcb[m].(parent := None) else k.pcb[m])
            && (forall m :: 0 <= m < MAXPROC ==> k'.children[m] == Without(k.children[m], {p}))
  {
    var loc: seq<Place> :| InvAt(k, loc);
    OutChildIsDetaching(k, loc, p);
  }

  lemma ReapIsRemoval(k: K, cpu: nat, p: nat)
    requires Inv(k) && Bounded(k) && cpu < NCPU && p < MAXPROC && Guarded(k, cpu, {p})
    requires k.pcb[p].parent.Some? ==> k.pcb[p].parent.value < MAXPROC
    ensures Removed(k, cpu, {p}, Freed(k, {p}), Reap(k, cpu, p))
  {
    if k.pcb[p].semAdd.None? && p !in k.ready {
      ReapNothing(k, cpu, p);
    } else {
      ReapFrees(k, cpu, p);
      ReapDetaches(k, cpu, p);
      forall key ensures Get(Reap(k, cpu, p).val, key) == Get(k.val, key) + |Charged(k.pcb, {p}, key)| {
        ReapSignals(k, cpu, p, key);
      }
    }
  }

  lemma ReapNothing(k: K, cpu: nat, p: nat)
    requires Inv(k) && Shape(k) && p < MAXPROC
    requires k.pcb[p].semAdd.None? && p !in k.ready
    ensures Freed(k, {p}) == {}
    ensures Removed(k, cpu, {p}, {}, k)
  {
    var loc: seq<Place> :| InvAt(k, loc);
    assert Freed(k, {p}) == {};
    assert FreedOnto(k, {p}, [], k.free);
    OutBlockedIsWithoutAll(k, loc, p);
    WithoutNone(k.ready, {p});
    forall key ensures Charged(k.pcb, {p}, key) == {} {
    }
    forall m | 0 <= m < MAXPROC ensures Without(k.children[m], {}) == k.children[m] {
      WithoutNone(k.children[m], {});
    }
  }
}
