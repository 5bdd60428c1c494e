/**
 * The sequence-level facts the tech path is built from: the names of a build
 * order, the distinct names in order of first occurrence, and the
 * transitions between consecutive events.
 */
module TechPath {
  import opened Replay
  import opened Graph

  /** The action names of a build order, in order. */
  function Names(bo: seq<BuildEvent>): (ns: seq<string>)
    ensures |ns| == |bo|
    ensures forall k :: 0 <= k < |bo| ==> ns[k] == bo[k].name
  {
    seq(|bo|, k requires 0 <= k < |bo| => bo[k].name)
  }

  /** The distinct names of `ns`, each kept at its first occurrence. */
  function FirstOccurrences(ns: seq<string>): (r: seq<string>)
    ensures Distinct(r)
    ensures forall x :: x in r <==> x in ns
    ensures |r| <= |ns|
  {
    if ns == [] then []
    else
      assert ns == ns[..|ns| - 1] + [ns[|ns| - 1]];
      WithNode(FirstOccurrences(ns[..|ns| - 1]), ns[|ns| - 1])
  }

  lemma FirstOccurrencesSnoc(ns: seq<string>, y: string)
    ensures FirstOccurrences(ns + [y]) == WithNode(FirstOccurrences(ns), y)
  {
    assert (ns + [y])[..|ns|] == ns;
  }

  /** The distinct names come out in the order of their first occurrences. */
  lemma {:induction false} FirstOccurrencesOrdered(ns: seq<string>)
    ensures var r := FirstOccurrences(ns);
      forall a, b :: 0 <= a < b < |r| ==> IndexOf(ns, r[a]) < IndexOf(ns, r[b])
  {
    if ns != [] {
      var p, y := ns[..|ns| - 1], ns[|ns| - 1];
      assert ns == p + [y];
      FirstOccurrencesOrdered(p);
      FirstOccurrencesSnoc(p, y);
      IndexOfSnoc(p, y);
      var rp := FirstOccurrences(p);
      var r := FirstOccurrences(ns);
      forall a, b | 0 <= a < b < |r| ensures IndexOf(ns, r[a]) < IndexOf(ns, r[b]) {
        if b < |rp| {
          assert r[a] == rp[a] && r[b] == rp[b];
        } else {
          assert r[a] == rp[a] && r[b] == y && y !in p;
        }
      }
    }
  }

  /** The transition completed by the event at index `k`: from the previous name to this one. */
  function Transition(ns: seq<string>, k: nat): Edge
    requires 1 <= k < |ns|
  {
    (ns[k - 1], ns[k])
  }

  /** The consecutive transitions of `ns`: one pair per index after the first. */
  function Transitions(ns: seq<string>): set<Edge> {
    set k | 1 <= k < |ns| :: Transition(ns, k)
  }

  lemma TransitionsSnoc(ns: seq<string>, y: string)
    ensures ns == [] ==> Transitions(ns + [y]) == {}
    ensures ns != [] ==> Transitions(ns + [y]) == Transitions(ns) + {(ns[|ns| - 1], y)}
  {
    var q := ns + [y];
    if ns != [] {
      var extra := (ns[|ns| - 1], y);
      forall e | e in Transitions(q) ensures e in Transitions(ns) + {extra} {
        var k :| 1 <= k < |q| && Transition(q, k) == e;
        if k < |ns| {
          assert Transition(ns, k) == e;
        }
      }
      forall e | e in Transitions(ns) + {extra} ensures e in Transitions(q) {
        if e == extra {
          assert Transition(q, |ns|) == e;
        } else {
          var k :| 1 <= k < |ns| && Transition(ns, k) == e;
          assert Transition(q, k) == e;
        }
      }
    }
  }

  /** Extending a prefix by one more name adds the transition into that name. */
  lemma TransitionsPrefixStep(ns: seq<string>, n: nat)
    requires 0 < n < |ns|
    ensures Transitions(ns[..n + 1]) == Transitions(ns[..n]) + {Transition(ns, n)}
  {
    assert ns[..n + 1] == ns[..n] + [ns[n]];
    TransitionsSnoc(ns[..n], ns[n]);
  }

  /** At most one transition per event after the first; none for fewer than two events. */
  lemma {:induction false} TransitionsBound(ns: seq<string>)
    ensures |ns| <= 1 ==> Transitions(ns) == {}
    ensures |ns| >= 1 ==> |Transitions(ns)| <= |ns| - 1
  {
    if ns != [] {
      var p, y := ns[..|ns| - 1], ns[|ns| - 1];
      assert ns == p + [y];
      TransitionsSnoc(p, y);
      if p != [] {
        TransitionsBound(p);
        var extra := (p[|p| - 1], y);
        assert |Transitions(p) + {extra}| <= |Transitions(p)| + 1 by {
          if extra in Transitions(p) {
            assert Transitions(p) + {extra} == Transitions(p);
          }
        }
      }
    }
  }

  /** A self-loop on `x` is exactly two consecutive occurrences of `x`. */
  lemma SelfLoopIffRepeat(ns: seq<string>, x: string)
    ensures (x, x) in Transitions(ns) <==> exists k :: 1 <= k < |ns| && ns[k - 1] == x && ns[k] == x
  {
    if (x, x) in Transitions(ns) {
      var k :| 1 <= k < |ns| && Transition(ns, k) == (x, x);
      assert ns[k - 1] == x && ns[k] == x;
    }
    if exists k :: 1 <= k < |ns| && ns[k - 1] == x && ns[k] == x {
      var k :| 1 <= k < |ns| && ns[k - 1] == x && ns[k] == x;
      assert Transition(ns, k) == (x, x);
    }
  }

  /** The last index at which transition `e` occurs. */
  function LastIndex(ns: seq<string>, e: Edge): (k: nat)
    requires e in Transitions(ns)
    ensures 1 <= k < |ns| && Transition(ns, k) == e
    ensures forall j :: k < j < |ns| ==> Transition(ns, j) != e
  {
    var n := |ns|;
    if Transition(ns, n - 1) == e then n - 1
    else
      var p := ns[..n - 1];
      TransitionsSnoc(p, ns[n - 1]);
      assert ns == p + [ns[n - 1]];
      assert forall j :: 1 <= j < n - 1 ==> Transition(p, j) == Transition(ns, j);
      LastIndex(p, e)
  }

  lemma LastIndexSnoc(ns: seq<string>, y: string, e: Edge)
    requires ns != [] && e in Transitions(ns + [y])
    ensures e == (ns[|ns| - 1], y) ==> LastIndex(ns + [y], e) == |ns|
    ensures e != (ns[|ns| - 1], y) ==> e in Transitions(ns) && LastIndex(ns + [y], e) == LastIndex(ns, e)
  {
    TransitionsSnoc(ns, y);
    assert (ns + [y])[..|ns|] == ns;
  }
}
