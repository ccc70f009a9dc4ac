/** Delegate containers, as their unit tests pin them down. A unicast
    container holds at most one delegate; a multicast container holds a
    list. Delegates compare by value, and a delegate is its identity here.
    A multicast broadcast calls every entry in order; an entry removed while
    a broadcast is running is nulled rather than erased, skipped when the
    walk reaches it, and the outermost broadcast drops the nulls when it
    ends. What each target does when called is described by a Behaviour:
    nothing, remove itself, remove another delegate, or broadcast the
    container again with its argument lowered by one. */
module Containers {
  import opened Options

  type Delegate = nat

  datatype Action = Plain | RemoveSelf | RemoveOther(victim: Delegate) | Rebroadcast

  type Behaviour = Delegate -> Action

  /** One call of a target, with the argument it was given. */
  datatype Call = Call(target: Delegate, arg: nat)

  /** A unicast container: zero or one delegate. */
  class UnicastDelegate {
    var target: Option<Delegate>

    constructor ()
      ensures target == None
    {
      target := None;
    }

    function Size(): (n: nat)
      reads this
      ensures n <= 1 && (n == 0 <==> target.None?)
    {
      if target.Some? then 1 else 0
    }

    /** Assigning a delegate replaces whatever was held. */
    method Assign(d: Delegate)
      modifies this
      ensures target == Some(d) && Size() == 1
    {
      target := Some(d);
    }

    /** Clear, and assigning nullptr. */
    method Clear()
      modifies this
      ensures target == None && Size() == 0
    {
      target := None;
    }

    /** Copy assignment (and the copy constructor): both hold the delegate. */
    method CopyFrom(src: UnicastDelegate)
      modifies this
      ensures target == src.target && src.target == old(src.target)
    {
      target := src.target;
    }

    /** Move assignment (and the move constructor): the source is left empty. */
    method MoveFrom(src: UnicastDelegate)
      requires src != this
      modifies this, src
      ensures target == old(src.target) && src.target == None
    {
      target := src.target;
      src.target := None;
    }

    /** Invoking calls the held delegate, and does nothing when empty. */
    method Invoke(arg: nat) returns (calls: seq<Call>)
      ensures calls == if target.Some? then [Call(target.value, arg)] else []
    {
      calls := [];
      if target.Some? {
        calls := [Call(target.value, arg)];
      }
    }
  }

  /** The live delegates of a list, in order: a delegate is live exactly
      when some entry holds it. LiveAppend and CompactKeepsLive relate it to
      list growth and to the post-broadcast clean-up. */
  function Live(es: seq<Option<Delegate>>): (r: seq<Delegate>)
    ensures |r| <= |es|
    ensures forall d :: d in r <==> Some(d) in es
  {
    if es == [] then []
    else (if es[0].Some? then [es[0].value] else []) + Live(es[1..])
  }

  /** The list with its nulls dropped. */
  function Compact(es: seq<Option<Delegate>>): (r: seq<Option<Delegate>>)
    ensures forall k :: 0 <= k < |r| ==> r[k].Some?
  {
    if es == [] then []
    else (if es[0].Some? then [es[0]] else []) + Compact(es[1..])
  }

  /** The live delegates of a concatenation are those of each part, in order. */
  lemma {:induction false} LiveAppend(a: seq<Option<Delegate>>, b: seq<Option<Delegate>>)
    ensures Live(a + b) == Live(a) + Live(b)
  {
    if a == [] {
      assert a + b == b;
    } else {
      var ab := a + b;
      assert ab[0] == a[0] && ab[1..] == a[1..] + b;
      var head: seq<Delegate> := if a[0].Some? then [a[0].value] else [];
      calc {
        Live(ab);
        head + Live(a[1..] + b);
        { LiveAppend(a[1..], b); }
        head + (Live(a[1..]) + Live(b));
        (head + Live(a[1..])) + Live(b);
        Live(a) + Live(b);
      }
    }
  }

  /** Compacting keeps exactly the live delegates, in order. */
  lemma {:induction false} CompactKeepsLive(es: seq<Option<Delegate>>)
    ensures Live(Compact(es)) == Live(es)
    ensures |Compact(es)| == |Live(es)|
  {
    if es != [] {
      CompactKeepsLive(es[1..]);
      var c := Compact(es);
      if es[0].Some? {
        assert c[0] == es[0] && c[1..] == Compact(es[1..]);
      } else {
        assert c == Compact(es[1..]);
      }
    }
  }

  /** The position of the first entry equal to x, or |es| when none is. */
  function IndexOf(es: seq<Option<Delegate>>, x: Option<Delegate>): (i: nat)
    ensures i <= |es| && x !in es[..i]
    ensures i < |es| ==> es[i] == x
    ensures i == |es| ==> x !in es
  {
    if es == [] then 0
    else if es[0] == x then 0
    else
      var j := IndexOf(es[1..], x);
      assert es[..j + 1] == [es[0]] + es[1..][..j];
      assert j == |es[1..]| ==> es == [es[0]] + es[1..];
      j + 1
  }

  /** Remove outside a broadcast: the first matching entry is erased, and
      the list is unchanged when there is none. */
  function DeleteFirst(es: seq<Option<Delegate>>, d: Delegate): (r: seq<Option<Delegate>>)
    ensures Some(d) !in es ==> r == es
    ensures Some(d) in es ==> |r| == |es| - 1
    ensures Some(d) in es ==> multiset(r) == multiset(es) - multiset{Some(d)}
  {
    var i := IndexOf(es, Some(d));
    if i == |es| then es
    else
      assert es == es[..i] + [es[i]] + es[i + 1..];
      es[..i] + es[i + 1..]
  }

  /** Remove during a broadcast: the first matching entry is nulled. */
  function NullFirst(es: seq<Option<Delegate>>, d: Delegate): (r: seq<Option<Delegate>>)
    ensures |r| == |es|
    ensures Some(d) !in es ==> r == es
    ensures forall k :: 0 <= k < |es| && es[k] != Some(d) ==> r[k] == es[k]
  {
    var i := IndexOf(es, Some(d));
    if i == |es| then es else es[i := None]
  }

  /** What a broadcast does to the list and which calls it makes. */
  datatype Outcome = Outcome(entries: seq<Option<Delegate>>, calls: seq<Call>)

  /** The walk of a broadcast from position i: null entries are skipped;
      a live entry is called, its behaviour then acts on the list, and the
      walk moves on. Entries are never erased during the walk. */
  function Walk(es: seq<Option<Delegate>>, i: nat, b: Behaviour, arg: nat): (o: Outcome)
    ensures |o.entries| == |es|
    decreases arg, |es| - i
  {
    if i >= |es| then Outcome(es, [])
    else if es[i].None? then Walk(es, i + 1, b, arg)
    else
      var d := es[i].value;
      var effect := Effect(es, d, b, arg);
      var rest := Walk(effect.entries, i + 1, b, arg);
      Outcome(rest.entries, [Call(d, arg)] + effect.calls + rest.calls)
  }

  /** What a called target does to the list: removal nulls an entry, and a
      nested broadcast walks the whole list again with a lower argument. */
  function Effect(es: seq<Option<Delegate>>, d: Delegate, b: Behaviour, arg: nat): (o: Outcome)
    ensures |o.entries| == |es|
    decreases arg, 0
  {
    match b(d)
    case Plain => Outcome(es, [])
    case RemoveSelf => Outcome(NullFirst(es, d), [])
    case RemoveOther(v) => Outcome(NullFirst(es, v), [])
    case Rebroadcast => if arg > 0 then Walk(es, 0, b, arg - 1) else Outcome(es, [])
  }

  /** A multicast container. `depth` counts the broadcasts in progress;
      nulls exist only while one is. */
  class MulticastDelegate {
    var entries: seq<Option<Delegate>>
    var depth: nat

    ghost predicate Valid()
      reads this
    {
      depth == 0 ==> forall k :: 0 <= k < |entries| ==> entries[k].Some?
    }

    constructor ()
      ensures Valid() && entries == [] && depth == 0
    {
      entries, depth := [], 0;
    }

    /** Size counts the live delegates, duplicates separately. */
    function Size(): (n: nat)
      reads this
      ensures n == |Live(entries)|
      ensures Valid() && depth == 0 ==> n == |entries|
    {
      LiveOfFull(entries);
      |Live(entries)|
    }

    /** operator+= and PushBack append. */
    method Add(d: Delegate)
      requires Valid()
      modifies this`entries
      ensures Valid()
      ensures entries == old(entries) + [Some(d)]
      ensures Live(entries) == Live(old(entries)) + [d]
    {
      entries := entries + [Some(d)];
      LiveAppend(old(entries), [Some(d)]);
      assert Live([Some(d)]) == [d] by {
        assert [Some(d)][1..] == [];
      }
    }

    /** Remove and operator-=: the first matching entry goes, erased when no
        broadcast is running and nulled while one is. */
    method Remove(d: Delegate)
      requires Valid()
      modifies this`entries
      ensures Valid()
      ensures entries == if depth > 0 then NullFirst(old(entries), d) else DeleteFirst(old(entries), d)
    {
      var i := 0;
      while i < |entries| && entries[i] != Some(d)
        invariant 0 <= i <= |entries|
        invariant Some(d) !in entries[..i]
      {
        i := i + 1;
      }
      if i == |entries| {
        assert entries[..i] == entries;
      }
      assert i == IndexOf(entries, Some(d));
      if i == |entries| {
        return;
      }
      if depth > 0 {
        entries := entries[i := None];
      } else {
        entries := entries[..i] + entries[i + 1..];
      }
    }

    /** Clear and assigning nullptr empty the container. */
    method Clear()
      modifies this`entries
      ensures entries == [] && Size() == 0
    {
      entries := [];
    }

    /** Copy assignment (and the copy constructor). */
    method CopyFrom(src: MulticastDelegate)
      requires src.Valid() && src.depth == 0
      modifies this`entries
      ensures entries == src.entries && Size() == src.Size()
    {
      entries := src.entries;
    }

    /** Move assignment (and the move constructor): the source is left empty. */
    method MoveFrom(src: MulticastDelegate)
      requires src != this && src.Valid() && src.depth == 0
      modifies this`entries, src`entries
      ensures entries == old(src.entries) && src.entries == [] && src.Size() == 0
    {
      entries := src.entries;
      src.entries := [];
    }

    /** operator() and Broadcast. */
    method Broadcast(b: Behaviour, arg: nat) returns (calls: seq<Call>)
      requires Valid()
      modifies this`entries, this`depth
      ensures Valid() && depth == old(depth)
      ensures calls == Walk(old(entries), 0, b, arg).calls
      ensures entries == if old(depth) == 0 then Compact(Walk(old(entries), 0, b, arg).entries)
                         else Walk(old(entries), 0, b, arg).entries
      decreases arg, 1
    {
      depth := depth + 1;
      calls := [];
      var i := 0;
      while i < |entries|
        invariant 0 <= i <= |entries| == |old(entries)|
        invariant depth == old(depth) + 1
        invariant var rest := Walk(entries, i, b, arg);
                  Outcome(rest.entries, calls + rest.calls) == Walk(old(entries), 0, b, arg)
      {
        if entries[i].Some? {
          var d := entries[i].value;
          calls := calls + [Call(d, arg)];
          var more := Act(d, b, arg);
          calls := calls + more;
        }
        i := i + 1;
      }
      depth := depth - 1;
      if depth == 0 {
        entries := Compact(entries);
      }
    }

    /** A called target acting on the container in the middle of a broadcast. */
    method Act(d: Delegate, b: Behaviour, arg: nat) returns (calls: seq<Call>)
      requires Valid() && depth > 0
      modifies this`entries, this`depth
      ensures Valid() && depth == old(depth)
      ensures Outcome(entries, calls) == Effect(old(entries), d, b, arg)
      decreases arg, 0
    {
      calls := [];
      match b(d) {
        case Plain =>
        case RemoveSelf =>
          Remove(d);
        case RemoveOther(v) =>
          Remove(v);
        case Rebroadcast =>
          if arg > 0 {
            calls := Broadcast(b, arg - 1);
          }
      }
    }
  }

  lemma {:induction false} LiveOfFull(es: seq<Option<Delegate>>)
    ensures (forall k :: 0 <= k < |es| ==> es[k].Some?) ==> |Live(es)| == |es|
  {
    if es != [] {
      LiveOfFull(es[1..]);
      assert forall k :: 1 <= k < |es| ==> es[1..][k - 1] == es[k];
    }
  }

  /** A delegate that removes itself runs once and is gone afterwards. */
  lemma SelfRemoval(d: Delegate, b: Behaviour, arg: nat)
    requires b(d) == RemoveSelf
    ensures Walk([Some(d)], 0, b, arg) == Outcome([None], [Call(d, arg)])
    ensures Compact(Walk([Some(d)], 0, b, arg).entries) == []
  {
    assert NullFirst([Some(d)], d) == [None];
    var tail: seq<Option<Delegate>> := [None];
    assert tail[1..] == [];
  }

  /** A delegate removed by an earlier one in the same broadcast is skipped,
      and only the remover is left afterwards. */
  lemma RemoveNext(d1: Delegate, d2: Delegate, b: Behaviour, arg: nat)
    requires d1 != d2 && b(d1) == RemoveOther(d2)
    ensures Walk([Some(d1), Some(d2)], 0, b, arg) == Outcome([Some(d1), None], [Call(d1, arg)])
    ensures Compact(Walk([Some(d1), Some(d2)], 0, b, arg).entries) == [Some(d1)]
  {
    var es := [Some(d1), Some(d2)];
    var after := [Some(d1), None];
    assert IndexOf(es, Some(d2)) == 1 by {
      assert IndexOf(es[1..], Some(d2)) == 0;
    }
    assert Effect(es, d1, b, arg) == Outcome(after, []);
    assert Walk(after, 1, b, arg) == Outcome(after, []) by {
      assert Walk(after, 2, b, arg) == Outcome(after, []);
    }
    assert Compact([Some(d1), None]) == [Some(d1)] by {
      assert [Some(d1), None][1..] == [None];
      var tail: seq<Option<Delegate>> := [None];
      assert tail[1..] == [];
    }
  }

  /** A target that broadcasts again with a lower argument runs once per
      level, arg + 1 times in all, and leaves the list as it was. */
  lemma {:induction false} NestedBroadcast(d: Delegate, b: Behaviour, arg: nat)
    requires b(d) == Rebroadcast
    ensures Walk([Some(d)], 0, b, arg).entries == [Some(d)]
    ensures |Walk([Some(d)], 0, b, arg).calls| == arg + 1
    ensures forall k :: 0 <= k <= arg ==> Walk([Some(d)], 0, b, arg).calls[k] == Call(d, arg - k)
  {
    if arg > 0 {
      NestedBroadcast(d, b, arg - 1);
    }
  }

  /** Each delegate called once with the same argument, in order; the
      calls of a quiet broadcast (QuietBroadcast). */
  function CallEach(ds: seq<Delegate>, arg: nat): (r: seq<Call>)
    ensures |r| == |ds|
    ensures forall k :: 0 <= k < |r| ==> r[k] == Call(ds[k], arg)
  {
    if ds == [] then [] else [Call(ds[0], arg)] + CallEach(ds[1..], arg)
  }

  /** When no target removes anything or broadcasts again, a broadcast calls
      every live delegate once, in order, and changes nothing. */
  lemma {:induction false} QuietBroadcast(es: seq<Option<Delegate>>, i: nat, b: Behaviour, arg: nat)
    requires i <= |es|
    requires forall k :: 0 <= k < |es| && es[k].Some? ==> b(es[k].value) == Plain
    ensures Walk(es, i, b, arg) == Outcome(es, CallEach(Live(es[i..]), arg))
    decreases |es| - i
  {
    if i < |es| {
      QuietBroadcast(es, i + 1, b, arg);
      assert es[i..][0] == es[i] && es[i..][1..] == es[i + 1..];
      var live := Live(es[i..]);
      if es[i].Some? {
        assert live == [es[i].value] + Live(es[i + 1..]);
        assert CallEach(live, arg) == [Call(es[i].value, arg)] + CallEach(Live(es[i + 1..]), arg) by {
          assert live[1..] == Live(es[i + 1..]);
        }
      } else {
        assert live == Live(es[i + 1..]);
      }
    } else {
      assert es[i..] == [];
    }
  }

  /** Broadcasting an empty container calls nothing. */
  lemma EmptyBroadcast(b: Behaviour, arg: nat)
    ensures Walk([], 0, b, arg) == Outcome([], [])
  {
  }
}
