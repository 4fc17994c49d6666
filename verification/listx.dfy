/** headers/listx.h: circular doubly linked lists threaded through memory.
  *
  * The memory is a pair of maps from addresses to addresses, one for every `next`
  * field and one for every `prev` field.  The ghost map `lists` says what the memory
  * means: it sends the address of each list head to the sequence of addresses linked
  * behind it.  The ghost map `home` sends each linked address to the head of the one
  * list it is on.
  */
module ListX {

  // ---------------------------------------------------------------- meaning

  /** The address before position k, and the address at position k, in the ring of h. */
  function Before<A>(h: A, ns: seq<A>, k: nat): A
    requires k <= |ns|
  {
    if k == 0 then h else ns[k - 1]
  }

  function After<A>(h: A, ns: seq<A>, k: nat): A
    requires k <= |ns|
  {
    if k == |ns| then h else ns[k]
  }

  /** The links hold exactly the ring h, ns[0], ns[1], ..., back to h. */
  ghost predicate NextOk<A(!new)>(next: map<A, A>, h: A, ns: seq<A>) {
    forall i: nat {:trigger Before(h, ns, i)} :: i <= |ns| ==>
      Before(h, ns, i) in next && next[Before(h, ns, i)] == After(h, ns, i)
  }

  ghost predicate PrevOk<A(!new)>(prev: map<A, A>, h: A, ns: seq<A>) {
    forall i: nat {:trigger After(h, ns, i)} :: i <= |ns| ==>
      After(h, ns, i) in prev && prev[After(h, ns, i)] == Before(h, ns, i)
  }

  ghost predicate Linked<A(!new)>(next: map<A, A>, prev: map<A, A>, h: A, ns: seq<A>) {
    NextOk(next, h, ns) && PrevOk(prev, h, ns)
  }

  ghost predicate NoDup<A(!new)>(s: seq<A>) {
    forall i, j :: 0 <= i < |s| && 0 <= j < |s| && s[i] == s[j] ==> i == j
  }

  /** `home` agrees with `lists`: every node is on one list, once, and no node is a head. */
  ghost predicate Separate<A(!new)>(lists: map<A, seq<A>>, home: map<A, A>) {
    && (forall h :: h in lists ==> NoDup(lists[h]))
    && (forall h, a :: h in lists && a in lists[h] ==> a in home && home[a] == h)
    && (forall a :: a in home ==> home[a] in lists && a in lists[home[a]])
    && (forall h :: h in lists ==> h !in home)
  }

  ghost predicate WellFormed<A(!new)>(next: map<A, A>, prev: map<A, A>, lists: map<A, seq<A>>, home: map<A, A>) {
    && Separate(lists, home)
    && forall h :: h in lists ==> Linked(next, prev, h, lists[h])
  }

  function Insert<A>(ns: seq<A>, k: nat, x: A): seq<A>
    requires k <= |ns|
  {
    ns[..k] + [x] + ns[k..]
  }

  function Remove<A>(ns: seq<A>, k: nat): seq<A>
    requires k < |ns|
  {
    ns[..k] + ns[k + 1..]
  }

  /** The address that n hops along m reach from a, with every address on the way. */
  ghost function Walk<A>(m: map<A, A>, a: A, n: nat): seq<A>
    decreases n
  {
    if n == 0 || a !in m then [] else [m[a]] + Walk(m, m[a], n - 1)
  }

  ghost function Reverse<A>(s: seq<A>): (r: seq<A>)
    ensures |r| == |s|
  {
    if s == [] then [] else Reverse(s[1..]) + [s[0]]
  }

  // ---------------------------------------------------------------- traversal

  lemma {:induction false} WalkForwardFrom<A(!new)>(next: map<A, A>, prev: map<A, A>, h: A, ns: seq<A>, k: nat)
    requires Linked(next, prev, h, ns) && k <= |ns|
    ensures Walk(next, Before(h, ns, k), |ns| - k + 1) == ns[k..] + [h]
    decreases |ns| - k
  {
    if k < |ns| {
      WalkForwardFrom(next, prev, h, ns, k + 1);
      assert ns[k..] == [ns[k]] + ns[k + 1..];
      assert next[Before(h, ns, k)] == ns[k] == Before(h, ns, k + 1);
    } else {
      assert next[Before(h, ns, k)] == h;
      assert Walk(next, h, 0) == [];
    }
  }

  lemma {:induction false} WalkBackwardFrom<A(!new)>(next: map<A, A>, prev: map<A, A>, h: A, ns: seq<A>, k: nat)
    requires Linked(next, prev, h, ns) && k <= |ns|
    ensures Walk(prev, After(h, ns, k), k + 1) == Reverse(ns[..k]) + [h]
    decreases k
  {
    if k > 0 {
      WalkBackwardFrom(next, prev, h, ns, k - 1);
      assert prev[After(h, ns, k)] == ns[k - 1] == After(h, ns, k - 1);
      ReverseLast(ns[..k]);
      assert ns[..k][..k - 1] == ns[..k - 1];
    } else {
      assert prev[After(h, ns, 0)] == h;
      assert Walk(prev, h, 0) == [];
    }
  }

  lemma {:induction false} ReverseLast<A>(s: seq<A>)
    requires s != []
    ensures Reverse(s) == [s[|s| - 1]] + Reverse(s[..|s| - 1])
  {
    if |s| > 1 {
      ReverseLast(s[1..]);
      assert s[1..][..|s| - 2] == s[..|s| - 1][1..];
      assert s[1..][|s[1..]| - 1] == s[|s| - 1];
    } else {
      assert s[1..] == [] && s[..0] == [];
    }
  }

  /** Going round a ring forwards meets the elements in order and comes back to the head;
    * going round backwards meets them in the opposite order. */
  lemma TraversalsAreMutualReverses<A(!new)>(next: map<A, A>, prev: map<A, A>, h: A, ns: seq<A>)
    requires Linked(next, prev, h, ns)
    ensures Walk(next, h, |ns| + 1) == ns + [h]
    ensures Walk(prev, h, |ns| + 1) == Reverse(ns) + [h]
  {
    WalkForwardFrom(next, prev, h, ns, 0);
    WalkBackwardFrom(next, prev, h, ns, |ns|);
    assert ns[0..] == ns && ns[..|ns|] == ns;
  }

  /** A memory represents one sequence at most: whoever agrees on the links agrees on the list. */
  lemma LinkedIsUnique<A(!new)>(next: map<A, A>, prev: map<A, A>, h: A, ns: seq<A>, ms: seq<A>)
    requires Linked(next, prev, h, ns) && Linked(next, prev, h, ms)
    requires h !in ns && h !in ms
    ensures ns == ms
  {
    var n := if |ns| <= |ms| then |ns| else |ms|;
    SamePrefix(next, prev, h, ns, ms, n);
    assert next[Before(h, ns, n)] == After(h, ns, n) && next[Before(h, ms, n)] == After(h, ms, n);
  }

  lemma {:induction false} SamePrefix<A(!new)>(next: map<A, A>, prev: map<A, A>, h: A, ns: seq<A>, ms: seq<A>, k: nat)
    requires Linked(next, prev, h, ns) && Linked(next, prev, h, ms)
    requires k <= |ns| && k <= |ms|
    ensures ns[..k] == ms[..k]
    ensures Before(h, ns, k) == Before(h, ms, k)
  {
    if k > 0 {
      SamePrefix(next, prev, h, ns, ms, k - 1);
      assert next[Before(h, ns, k - 1)] == ns[k - 1];
      assert next[Before(h, ms, k - 1)] == ms[k - 1];
      assert ns[..k] == ns[..k - 1] + [ns[k - 1]] && ms[..k] == ms[..k - 1] + [ms[k - 1]];
    }
  }

  // ---------------------------------------------------------------- the two surgeries

  lemma RingDistinct<A(!new)>(h: A, ns: seq<A>)
    requires NoDup(ns) && h !in ns
    ensures forall i: nat, j: nat :: i <= |ns| && j <= |ns| && Before(h, ns, i) == Before(h, ns, j) ==> i == j
    ensures forall i: nat, j: nat :: i <= |ns| && j <= |ns| && After(h, ns, i) == After(h, ns, j) ==> i == j
    ensures forall i: nat :: i <= |ns| ==> Before(h, ns, i) == h || Before(h, ns, i) in ns
    ensures forall i: nat :: i <= |ns| ==> After(h, ns, i) == h || After(h, ns, i) in ns
  {
  }

  lemma InsertedRing<A(!new)>(h: A, ns: seq<A>, k: nat, x: A, i: nat)
    requires k <= |ns| && i <= |ns| + 1
    ensures i <= k ==> Before(h, Insert(ns, k, x), i) == Before(h, ns, i)
    ensures i == k + 1 ==> Before(h, Insert(ns, k, x), i) == x
    ensures i > k + 1 ==> Before(h, Insert(ns, k, x), i) == Before(h, ns, i - 1)
    ensures i < k ==> After(h, Insert(ns, k, x), i) == After(h, ns, i)
    ensures i == k ==> After(h, Insert(ns, k, x), i) == x
    ensures i > k ==> After(h, Insert(ns, k, x), i) == After(h, ns, i - 1)
  {
  }

  lemma RemovedRing<A(!new)>(h: A, ns: seq<A>, k: nat, i: nat)
    requires k < |ns| && i < |ns|
    ensures i <= k ==> Before(h, Remove(ns, k), i) == Before(h, ns, i)
    ensures i > k ==> Before(h, Remove(ns, k), i) == Before(h, ns, i + 1)
    ensures i < k ==> After(h, Remove(ns, k), i) == After(h, ns, i)
    ensures i >= k ==> After(h, Remove(ns, k), i) == After(h, ns, i + 1)
  {
  }

  lemma InsertKeepsNext<A(!new)>(next: map<A, A>, h: A, ns: seq<A>, k: nat, x: A)
    requires NextOk(next, h, ns) && NoDup(ns) && h !in ns
    requires k <= |ns| && x !in ns && x != h
    ensures NextOk(next[x := After(h, ns, k)][Before(h, ns, k) := x], h, Insert(ns, k, x))
  {
    RingDistinct(h, ns);
    var ms, next' := Insert(ns, k, x), next[x := After(h, ns, k)][Before(h, ns, k) := x];
    forall i: nat | i <= |ms|
      ensures Before(h, ms, i) in next' && next'[Before(h, ms, i)] == After(h, ms, i)
    {
      InsertedRing(h, ns, k, x, i);
    }
  }

  lemma InsertKeepsPrev<A(!new)>(prev: map<A, A>, h: A, ns: seq<A>, k: nat, x: A)
    requires PrevOk(prev, h, ns) && NoDup(ns) && h !in ns
    requires k <= |ns| && x !in ns && x != h
    ensures PrevOk(prev[After(h, ns, k) := x][x := Before(h, ns, k)], h, Insert(ns, k, x))
  {
    RingDistinct(h, ns);
    var ms, prev' := Insert(ns, k, x), prev[After(h, ns, k) := x][x := Before(h, ns, k)];
    forall i: nat | i <= |ms|
      ensures After(h, ms, i) in prev' && prev'[After(h, ms, i)] == Before(h, ms, i)
    {
      InsertedRing(h, ns, k, x, i);
    }
  }

  lemma RemoveKeepsNext<A(!new)>(next: map<A, A>, h: A, ns: seq<A>, k: nat)
    requires NextOk(next, h, ns) && NoDup(ns) && h !in ns
    requires k < |ns|
    ensures ns[k] in next && next[ns[k]] == After(h, ns, k + 1)
    ensures NextOk(next[Before(h, ns, k) := After(h, ns, k + 1)][ns[k] := ns[k]], h, Remove(ns, k))
  {
    RingDistinct(h, ns);
    assert Before(h, ns, k + 1) == ns[k];
    var ms, next' := Remove(ns, k), next[Before(h, ns, k) := After(h, ns, k + 1)][ns[k] := ns[k]];
    forall i: nat | i <= |ms|
      ensures Before(h, ms, i) in next' && next'[Before(h, ms, i)] == After(h, ms, i)
    {
      RemovedRing(h, ns, k, i);
    }
  }

  lemma RemoveKeepsPrev<A(!new)>(prev: map<A, A>, h: A, ns: seq<A>, k: nat)
    requires PrevOk(prev, h, ns) && NoDup(ns) && h !in ns
    requires k < |ns|
    ensures ns[k] in prev && prev[ns[k]] == Before(h, ns, k)
    ensures PrevOk(prev[After(h, ns, k + 1) := Before(h, ns, k)][ns[k] := ns[k]], h, Remove(ns, k))
  {
    RingDistinct(h, ns);
    assert After(h, ns, k) == ns[k];
    var ms, prev' := Remove(ns, k), prev[After(h, ns, k + 1) := Before(h, ns, k)][ns[k] := ns[k]];
    forall i: nat | i <= |ms|
      ensures After(h, ms, i) in prev' && prev'[After(h, ms, i)] == Before(h, ms, i)
    {
      RemovedRing(h, ns, k, i);
    }
  }

  /** Writes at up to three cells, none of them in the ring of g, keep that ring: the frame of
    * every list operation. */
  lemma FarWritesKeepLinks<A(!new)>(next: map<A, A>, prev: map<A, A>, next': map<A, A>, prev': map<A, A>,
                                    lists: map<A, seq<A>>, home: map<A, A>, g: A, cells: set<A>)
    requires WellFormed(next, prev, lists, home) && g in lists
    requires next.Keys <= next'.Keys && prev.Keys <= prev'.Keys
    requires forall a :: a in next && a !in cells ==> next'[a] == next[a]
    requires forall a :: a in prev && a !in cells ==> prev'[a] == prev[a]
    requires forall a :: a in cells ==> a != g && (a in home ==> home[a] != g)
    ensures Linked(next', prev', g, lists[g])
  {
    var ns := lists[g];
    forall i: nat | i <= |ns|
      ensures Before(g, ns, i) !in cells && After(g, ns, i) !in cells
    {
      assert Before(g, ns, i) == g || Before(g, ns, i) in ns;
      assert After(g, ns, i) == g || After(g, ns, i) in ns;
    }
  }

  lemma InsertedElements<A(!new)>(ns: seq<A>, k: nat, x: A)
    requires k <= |ns|
    ensures forall a :: a in Insert(ns, k, x) <==> a == x || a in ns
    ensures NoDup(ns) && x !in ns ==> NoDup(Insert(ns, k, x))
  {
    var ms := Insert(ns, k, x);
    forall a | a in ns ensures a in ms {
      var i :| 0 <= i < |ns| && ns[i] == a;
      assert ms[if i < k then i else i + 1] == a;
    }
    assert ms[k] == x;
    assert forall i :: 0 <= i < |ms| ==> ms[i] == if i < k then ns[i] else if i == k then x else ns[i - 1];
  }

  lemma RemovedElements<A(!new)>(ns: seq<A>, k: nat)
    requires k < |ns| && NoDup(ns)
    ensures forall a :: a in Remove(ns, k) <==> a in ns && a != ns[k]
    ensures NoDup(Remove(ns, k))
  {
    var ms := Remove(ns, k);
    forall a | a in ns && a != ns[k] ensures a in ms {
      var i :| 0 <= i < |ns| && ns[i] == a;
      assert ms[if i < k then i else i - 1] == a;
    }
    assert forall i :: 0 <= i < |ms| ==> ms[i] == if i < k then ns[i] else ns[i + 1];
  }

  lemma InsertKeepsSeparate<A(!new)>(lists: map<A, seq<A>>, home: map<A, A>, h: A, k: nat, x: A)
    requires Separate(lists, home)
    requires h in lists && k <= |lists[h]| && x !in home && x !in lists
    ensures Separate(lists[h := Insert(lists[h], k, x)], home[x := h])
  {
    var ms := Insert(lists[h], k, x);
    var lists', home' := lists[h := ms], home[x := h];
    InsertedElements(lists[h], k, x);
    forall g, a | g in lists' && a in lists'[g] ensures a in home' && home'[a] == g {
      assert a == x || a in lists[g];
    }
    forall a | a in home' ensures home'[a] in lists' && a in lists'[home'[a]] {
      assert a != x ==> a in lists[home[a]];
    }
  }

  lemma RemoveKeepsSeparate<A(!new)>(lists: map<A, seq<A>>, home: map<A, A>, h: A, k: nat)
    requires Separate(lists, home)
    requires h in lists && k < |lists[h]|
    ensures Separate(lists[h := Remove(lists[h], k)], home - {lists[h][k]})
  {
    var x, ms := lists[h][k], Remove(lists[h], k);
    var lists', home' := lists[h := ms], home - {x};
    RemovedElements(lists[h], k);
    assert x in lists[h];
    forall g, a | g in lists' && a in lists'[g] ensures a in home' && home'[a] == g {
      assert a in lists[g] && home[a] == g && home[x] == h;
    }
    forall a | a in home' ensures home'[a] in lists' && a in lists'[home'[a]] {
      assert a in lists[home[a]];
    }
  }

  /** __list_add between two neighbours of one list refines insertion into that sequence and
    * touches no other list. */
  lemma InsertRefines<A(!new)>(next: map<A, A>, prev: map<A, A>, lists: map<A, seq<A>>, home: map<A, A>,
                               h: A, k: nat, x: A)
    requires WellFormed(next, prev, lists, home)
    requires h in lists && k <= |lists[h]| && x !in home && x !in lists
    ensures var p, n := Before(h, lists[h], k), After(h, lists[h], k);
            WellFormed(next[x := n][p := x], prev[n := x][x := p], lists[h := Insert(lists[h], k, x)], home[x := h])
  {
    var ns := lists[h];
    var p, n := Before(h, ns, k), After(h, ns, k);
    var next', prev' := next[x := n][p := x], prev[n := x][x := p];
    InsertKeepsSeparate(lists, home, h, k, x);
    assert x !in ns && h !in ns && x != h;
    InsertKeepsNext(next, h, ns, k, x);
    InsertKeepsPrev(prev, h, ns, k, x);
    assert p == h || p in ns;
    assert n == h || n in ns;
    forall g | g in lists && g != h ensures Linked(next', prev', g, lists[g]) {
      FarWritesKeepLinks(next, prev, next', prev', lists, home, g, {x, p, n});
    }
  }

  /** No assignment of sequences to heads that has g and h among its heads explains the links. */
  ghost predicate Meaningless<A(!new)>(next: map<A, A>, prev: map<A, A>, g: A, h: A) {
    forall lists: map<A, seq<A>>, home: map<A, A> :: g in lists && h in lists ==> !WellFormed(next, prev, lists, home)
  }

  /** list_add of a node that is still linked on another list ruins both: afterwards the links
    * represent no two sequences at all.  Walking from the old head reaches the node, whose prev
    * field names the new head. */
  lemma DoubleInsertRuins<A(!new)>(next: map<A, A>, prev: map<A, A>, lists: map<A, seq<A>>, home: map<A, A>, h: A, x: A)
    requires WellFormed(next, prev, lists, home)
    requires h in lists && x in home && home[x] != h
    ensures h in next && Meaningless(next[x := next[h]][h := x], prev[next[h] := x][x := h], home[x], h)
  {
    var g, ns := home[x], lists[home[x]];
    var i :| 0 <= i < |ns| && ns[i] == x;
    StepForward(next, prev, lists, home, h, 0);
    var n := next[h];
    var next', prev' := next[x := n][h := x], prev[n := x][x := h];
    forall lists': map<A, seq<A>>, home': map<A, A> | g in lists' && h in lists'
      ensures !WellFormed(next', prev', lists', home')
    {
      if WellFormed(next', prev', lists', home') {
        WalkToNode(next, prev, lists, home, h, x, i, next', prev', lists', home', i);
      }
    }
  }

  /** Up to node x of its ring, the links are the old ones, so any explanation starts in the same way. */
  lemma {:induction false} WalkToNode<A(!new)>(next: map<A, A>, prev: map<A, A>, lists: map<A, seq<A>>, home: map<A, A>,
      h: A, x: A, i: nat, next': map<A, A>, prev': map<A, A>, lists': map<A, seq<A>>, home': map<A, A>, j: nat)
    requires WellFormed(next, prev, lists, home) && WellFormed(next', prev', lists', home')
    requires h in lists && x in home && home[x] != h && home[x] in lists'
    requires j <= i < |lists[home[x]]| && lists[home[x]][i] == x
    requires forall a :: a in next && a != x && a != h ==> a in next' && next'[a] == next[a]
    ensures j < |lists'[home[x]]| && Before(home[x], lists'[home[x]], j) == Before(home[x], lists[home[x]], j)
    ensures lists'[home[x]][j] == lists[home[x]][j]
    ensures lists[home[x]][j] in prev' && prev'[lists[home[x]][j]] == Before(home[x], lists[home[x]], j) != h
  {
    var g, ns, ms := home[x], lists[home[x]], lists'[home[x]];
    if j > 0 {
      WalkToNode(next, prev, lists, home, h, x, i, next', prev', lists', home', j - 1);
      assert ns[j - 1] in ns;
    }
    assert next[Before(g, ns, j)] == After(g, ns, j);
    assert next'[Before(g, ms, j)] == After(g, ms, j);
    assert ns[j] in ns;
    assert prev'[After(g, ms, j)] == Before(g, ms, j);
  }

  /** list_del refines deletion from one sequence, self-links the node, touches no other list. */
  lemma RemoveRefines<A(!new)>(next: map<A, A>, prev: map<A, A>, lists: map<A, seq<A>>, home: map<A, A>, h: A, k: nat)
    requires WellFormed(next, prev, lists, home)
    requires h in lists && k < |lists[h]|
    ensures var x := lists[h][k];
            && x in next && x in prev
            && var p, n := prev[x], next[x];
            WellFormed(next[p := n][x := x], prev[n := p][x := x], lists[h := Remove(lists[h], k)], home - {x})
  {
    var ns := lists[h];
    var x := ns[k];
    assert x in ns && h !in ns;
    RemoveKeepsSeparate(lists, home, h, k);
    RemoveKeepsNext(next, h, ns, k);
    RemoveKeepsPrev(prev, h, ns, k);
    var p, n := prev[x], next[x];
    assert p == h || p in ns;
    assert n == h || n in ns;
    var next', prev' := next[p := n][x := x], prev[n := p][x := x];
    forall g | g in lists && g != h ensures Linked(next', prev', g, lists[g]) {
      FarWritesKeepLinks(next, prev, next', prev', lists, home, g, {x, p, n});
    }
  }

  /** Self-linking an unlinked address keeps all lists, and makes it a new empty list if wanted. */
  lemma InitRefines<A(!new)>(next: map<A, A>, prev: map<A, A>, lists: map<A, seq<A>>, home: map<A, A>, h: A)
    requires WellFormed(next, prev, lists, home)
    requires h !in home && (h in lists ==> lists[h] == [])
    ensures WellFormed(next[h := h], prev[h := h], lists, home)
    ensures WellFormed(next[h := h], prev[h := h], lists[h := []], home)
  {
    var next', prev' := next[h := h], prev[h := h];
    forall g | g in lists && g != h ensures Linked(next', prev', g, lists[g]) {
      FarWritesKeepLinks(next, prev, next', prev', lists, home, g, {h});
    }
    assert Linked(next', prev', h, []);
    var lists' := lists[h := []];
    assert forall a :: a in home ==> home[a] != h;
    assert Separate(lists', home);
  }

  /** Two neighbours in a ring: what a list_for_each step computes. */
  lemma StepForward<A(!new)>(next: map<A, A>, prev: map<A, A>, lists: map<A, seq<A>>, home: map<A, A>, h: A, i: nat)
    requires WellFormed(next, prev, lists, home)
    requires h in lists && i <= |lists[h]|
    ensures Before(h, lists[h], i) in next && next[Before(h, lists[h], i)] == After(h, lists[h], i)
    ensures i < |lists[h]| ==> lists[h][i] != h
  {
    if i < |lists[h]| {
      assert lists[h][i] in lists[h];
    }
  }

  // ---------------------------------------------------------------- the code

  class ListMem<A(==,!new)> {
    var next: map<A, A>
    var prev: map<A, A>
    ghost var lists: map<A, seq<A>>
    ghost var home: map<A, A>

    ghost predicate Valid()
      reads this
    {
      WellFormed(next, prev, lists, home)
    }

    constructor ()
      ensures Valid() && lists == map[] && home == map[]
    {
      next, prev, lists, home := map[], map[], map[], map[];
    }

    /** What one step of a list_for_each loop reads. */
    lemma StepAt(h: A, i: nat)
      requires Valid() && h in lists && i <= |lists[h]|
      ensures Before(h, lists[h], i) in next && next[Before(h, lists[h], i)] == After(h, lists[h], i)
      ensures i < |lists[h]| ==> lists[h][i] != h
      ensures NoDup(lists[h])
    {
      StepForward(next, prev, lists, home, h, i);
    }

    /** What the ghost maps say of one node. */
    lemma HomeAt(h: A, i: nat)
      requires Valid() && h in lists && i < |lists[h]|
      ensures lists[h][i] in home && home[lists[h][i]] == h && h !in home && lists[h][i] !in lists
    {
      assert lists[h][i] in lists[h];
    }

    /** INIT_LIST_HEAD.  With `asHead` the address becomes (or stays) an empty list; without it the
      * address is only self-linked, as allocPcb does to the node fields of a fresh PCB. */
    method InitListHead(list: A, ghost asHead: bool)
      requires Valid() && list !in home
      requires list in lists ==> lists[list] == []
      modifies this
      ensures Valid() && home == old(home)
      ensures lists == if asHead then old(lists)[list := []] else old(lists)
      ensures next == old(next)[list := list] && prev == old(prev)[list := list]
    {
      InitRefines(next, prev, lists, home, list);
      next := next[list := list];
      prev := prev[list := list];
      if asHead {
        lists := lists[list := []];
      }
    }

    /** __list_add: four link writes and nothing else. */
    method ListAddBetween(nw: A, p: A, n: A)
      modifies this`next, this`prev
      ensures next == old(next)[nw := n][p := nw]
      ensures prev == old(prev)[n := nw][nw := p]
    {
      prev := prev[n := nw];
      next := next[nw := n];
      prev := prev[nw := p];
      next := next[p := nw];
    }

    /** list_add of an unlinked node prepends it; of a node linked elsewhere, it ruins both lists. */
    method ListAdd(nw: A, head: A)
      requires Valid() && head in lists && nw !in lists && (nw in home ==> home[nw] != head)
      modifies this
      ensures nw !in old(home) ==>
        Valid() && lists == old(lists)[head := [nw] + old(lists)[head]] && home == old(home)[nw := head]
      ensures nw in old(home) ==> Meaningless(next, prev, old(home)[nw], head)
    {
      ghost var linked := nw in home;
      if linked {
        DoubleInsertRuins(next, prev, lists, home, head, nw);
      } else {
        InsertRefines(next, prev, lists, home, head, 0, nw);
        assert Insert(lists[head], 0, nw) == [nw] + lists[head];
      }
      StepForward(next, prev, lists, home, head, 0);
      ListAddBetween(nw, head, next[head]);
      if !linked {
        lists := lists[head := [nw] + lists[head]];
        home := home[nw := head];
      }
    }

    method ListAddTail(nw: A, head: A)
      requires Valid() && head in lists && nw !in home && nw !in lists
      modifies this
      ensures Valid()
      ensures lists == old(lists)[head := old(lists)[head] + [nw]]
      ensures home == old(home)[nw := head]
    {
      ghost var n := |lists[head]|;
      InsertRefines(next, prev, lists, home, head, n, nw);
      assert Insert(lists[head], n, nw) == lists[head] + [nw];
      assert prev[head] == Before(head, lists[head], n);
      ListAddBetween(nw, prev[head], head);
      lists := lists[head := lists[head] + [nw]];
      home := home[nw := head];
    }

    /** __list_del: join the neighbours. */
    method ListDelBetween(p: A, n: A)
      modifies this`next, this`prev
      ensures next == old(next)[p := n]
      ensures prev == old(prev)[n := p]
    {
      prev := prev[n := p];
      next := next[p := n];
    }

    /** list_del of the node at position k of list h. */
    method ListDel(entry: A, ghost h: A, ghost k: nat)
      requires Valid() && h in lists && k < |lists[h]| && lists[h][k] == entry
      modifies this
      ensures Valid()
      ensures lists == old(lists)[h := Remove(old(lists)[h], k)]
      ensures home == old(home) - {entry}
      ensures entry in next && next[entry] == entry && entry in prev && prev[entry] == entry
    {
      RemoveRefines(next, prev, lists, home, h, k);
      ListDelBetween(prev[entry], next[entry]);
      next := next[entry := entry];
      prev := prev[entry := entry];
      lists := lists[h := Remove(lists[h], k)];
      home := home - {entry};
    }

    method ListEmpty(head: A) returns (r: bool)
      requires Valid() && head in lists
      ensures r <==> lists[head] == []
    {
      StepForward(next, prev, lists, home, head, 0);
      r := next[head] == head;
    }

    /** list_next applied to a list head: its first element, or nothing (NULL). */
    method ListNext(head: A) returns (found: bool, first: A)
      requires Valid() && head in lists
      ensures found <==> lists[head] != []
      ensures found ==> first == lists[head][0]
      ensures !found ==> first == head
    {
      var e := ListEmpty(head);
      StepForward(next, prev, lists, home, head, 0);
      found, first := !e, next[head];
    }
  }
}
