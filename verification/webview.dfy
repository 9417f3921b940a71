/** The webview helpers shared by src/webview/shared.ts and its hand-written
    copy assets/shared.js, which agree line for line on these two: `Pool`,
    a free list of elements that never runs dry, and `generateSelector`,
    the CSS path of an element from the document down. */
module Webview {

  import opened Text

  // ---------------------------------------------------------------------
  // Pool
  // ---------------------------------------------------------------------

  /** What `get` hands out: a deep copy of a pooled element (a new node
      with its content) or the pooled element itself. */
  datatype Handed<T> = Cloned(of: T) | Taken(item: T)

  /** A pool's state: the pooled elements, how many times `make` has been
      called, and the elements `discardElement` has detached from the
      document, in order. */
  datatype PoolState<T> = PoolState(items: seq<T>, made: nat, removed: seq<T>)

  /** `get()`: an empty pool is first stocked with a newly made element
      (`make` is the element its n-th call builds); then a pool of one
      hands out a clone of it and keeps it, and a larger pool hands out its
      last element. */
  function GetSpec<T>(s: PoolState<T>, make: nat -> T): (PoolState<T>, Handed<T>) {
    var s1 := if |s.items| == 0 then s.(items := [make(s.made)], made := s.made + 1) else s;
    if |s1.items| == 1 then (s1, Cloned(s1.items[0]))
    else (s1.(items := s1.items[..|s1.items| - 1]), Taken(s1.items[|s1.items| - 1]))
  }

  /** `discard(item)` */
  function DiscardSpec<T>(s: PoolState<T>, item: T): PoolState<T> {
    s.(items := s.items + [item])
  }

  /** `discardElement(item)`: discard it, then detach it. */
  function DiscardElementSpec<T>(s: PoolState<T>, item: T): PoolState<T> {
    DiscardSpec(s, item).(removed := s.removed + [item])
  }

  /** An empty pool makes exactly one element, keeps it, and hands out a
      copy of it. */
  lemma GetOnEmpty<T>(s: PoolState<T>, make: nat -> T)
    requires |s.items| == 0
    ensures GetSpec(s, make) == (s.(items := [make(s.made)], made := s.made + 1), Cloned(make(s.made)))
  {
  }

  /** A pool of one hands out a copy and is left as it was. */
  lemma GetOnOne<T>(s: PoolState<T>, make: nat -> T)
    requires |s.items| == 1
    ensures GetSpec(s, make) == (s, Cloned(s.items[0]))
  {
  }

  /** A pool of two or more hands out its last element and shrinks by
      exactly that one, without making anything. */
  lemma GetOnMany<T>(s: PoolState<T>, make: nat -> T)
    requires |s.items| >= 2
    ensures var (s2, h) := GetSpec(s, make);
      && h == Taken(s.items[|s.items| - 1])
      && s2.items + [h.item] == s.items
      && s2.made == s.made && s2.removed == s.removed
  {
  }

  /** After any `get` the pool holds at least one element, and a copy is
      handed out exactly when the pool held at most one. */
  lemma GetLeavesNonEmpty<T>(s: PoolState<T>, make: nat -> T)
    ensures var (s2, h) := GetSpec(s, make);
      |s2.items| >= 1 && (h.Cloned? <==> |s.items| <= 1)
  {
  }

  /** The pool is last-in first-out: an element discarded into a non-empty
      pool is the next one `get` hands out, and the pool is back where it
      was. */
  lemma DiscardThenGet<T>(s: PoolState<T>, item: T, make: nat -> T)
    requires |s.items| >= 1
    ensures GetSpec(DiscardSpec(s, item), make) == (s, Taken(item))
  {
    assert (s.items + [item])[..|s.items|] == s.items;
  }

  /** `discardElement` pools the element exactly as `discard` does and
      also detaches it. */
  lemma DiscardElementIsDiscard<T>(s: PoolState<T>, item: T)
    ensures DiscardElementSpec(s, item).items == DiscardSpec(s, item).items
    ensures DiscardElementSpec(s, item).removed == s.removed + [item]
    ensures DiscardSpec(s, item).removed == s.removed
  {
  }

  /** `Pool<T>` */
  class Pool<T> {
    var pool: seq<T>
    var made: nat
    var removed: seq<T>
    const make: nat -> T

    function State(): PoolState<T>
      reads this
    {
      PoolState(pool, made, removed)
    }

    constructor (make: nat -> T)
      ensures State() == PoolState([], 0, []) && this.make == make
    {
      this.make := make;
      pool, made, removed := [], 0, [];
    }

    method Get() returns (h: Handed<T>)
      modifies this
      ensures (State(), h) == GetSpec(old(State()), make)
    {
      if |pool| == 0 {
        pool := [make(made)];
        made := made + 1;
      }
      if |pool| == 1 {
        h := Cloned(pool[0]);
      } else {
        h := Taken(pool[|pool| - 1]);
        pool := pool[..|pool| - 1];
      }
    }

    method Discard(item: T)
      modifies this
      ensures State() == DiscardSpec(old(State()), item)
    {
      pool := pool + [item];
    }

    method DiscardElement(item: T)
      modifies this
      ensures State() == DiscardElementSpec(old(State()), item)
    {
      Discard(item);
      removed := removed + [item];
    }
  }

  // ---------------------------------------------------------------------
  // generateSelector
  // ---------------------------------------------------------------------

  /** One element on the way up from the starting element: its tag name and
      the tag names of its preceding element siblings. The way up ends at
      the first parent that is not an element (the document). */
  datatype Level = Level(tagName: string, preceding: seq<string>)

  /** How many of `tags` are exactly `tag`. */
  function CountTag(tags: seq<string>, tag: string): (n: nat)
    ensures n <= |tags|
    ensures tag !in tags ==> n == 0
  {
    if |tags| == 0 then 0
    else CountTag(tags[..|tags| - 1], tag) + (if tags[|tags| - 1] == tag then 1 else 0)
  }

  /** The selector of one element: its lower-cased tag and its position
      among the siblings of that tag, counted from 1. */
  function Part(l: Level): string {
    LowerAscii(l.tagName) + ":nth-of-type(" + NatToStr(1 + CountTag(l.preceding, l.tagName)) + ")"
  }

  /** The parts of a chain (starting element first), outermost first. */
  function Parts(chain: seq<Level>): (parts: seq<string>)
    ensures |parts| == |chain|
  {
    if |chain| == 0 then [] else [Part(chain[|chain| - 1])] + Parts(chain[..|chain| - 1])
  }

  function Selector(chain: seq<Level>): string {
    Join(Parts(chain), " > ")
  }

  /** `generateSelector(e)`, for the chain of elements from `e` up. */
  method GenerateSelector(chain: seq<Level>) returns (selector: string)
    ensures selector == Selector(chain)
  {
    var path: seq<string> := [];
    var i := 0;
    while i < |chain|
      invariant 0 <= i <= |chain|
      invariant path == Parts(chain[..i])
    {
      var e := chain[i];
      var index := 1;
      var j := 0;
      while j < |e.preceding|
        invariant 0 <= j <= |e.preceding|
        invariant index == 1 + CountTag(e.preceding[..j], e.tagName)
      {
        if e.preceding[j] == e.tagName {
          index := index + 1;
        }
        assert e.preceding[..j + 1][..j] == e.preceding[..j];
        j := j + 1;
      }
      assert e.preceding[..j] == e.preceding;
      var part := LowerAscii(e.tagName) + ":nth-of-type(" + NatToStr(index) + ")";
      assert part == Part(e);
      PartsStep(chain, i);
      path := [part] + path;
      i := i + 1;
    }
    assert chain[..i] == chain;
    selector := Join(path, " > ");
  }

  /** The loop's step: one more element of the chain puts its part in
      front. */
  lemma PartsStep(chain: seq<Level>, i: nat)
    requires i < |chain|
    ensures Parts(chain[..i + 1]) == [Part(chain[i])] + Parts(chain[..i])
  {
    assert chain[..i + 1][..i] == chain[..i];
  }

  /** The k-th part, outermost first, belongs to the k-th element from the
      top. */
  lemma {:induction false} PartsOrder(chain: seq<Level>, k: nat)
    requires k < |chain|
    ensures Parts(chain)[k] == Part(chain[|chain| - 1 - k])
  {
    if k > 0 {
      var init := chain[..|chain| - 1];
      PartsOrder(init, k - 1);
      assert init[|init| - 1 - (k - 1)] == chain[|chain| - 1 - k];
    }
  }

  /** Going one element further up puts that element's part in front. */
  lemma SelectorOfParent(chain: seq<Level>, parent: Level)
    requires |chain| >= 1
    ensures Selector(chain + [parent]) == Part(parent) + " > " + Selector(chain)
  {
    assert (chain + [parent])[..|chain|] == chain;
  }

  /** A chain of one element is that element's part alone, and no element
      gives the empty selector. */
  lemma SelectorEnds(l: Level)
    ensures Selector([l]) == Part(l)
    ensures Selector([]) == ""
  {
    assert [l][..0] == [];
  }

  /** An element is counted among its same-tag siblings exactly: with no
      earlier sibling of its tag it is the first of its type, and each
      earlier sibling of its tag moves it one further. */
  lemma NthOfType(l: Level, sibling: string)
    ensures l.tagName !in l.preceding ==> CountTag(l.preceding, l.tagName) == 0
    ensures CountTag(l.preceding + [sibling], l.tagName) ==
      CountTag(l.preceding, l.tagName) + (if sibling == l.tagName then 1 else 0)
  {
    assert (l.preceding + [sibling])[..|l.preceding|] == l.preceding;
  }
}
