/** When Job names stay within the limit, and when two operations share one name. */
module JobNames {
  import opened Manifest

  predicate Untruncated(node: string, shim: string, op: string) {
    |FullName(node, shim, op)| <= NAME_MAX
  }

  /** A Job's name is the start of node, shim and operation joined by dashes. No name exceeds 63
      characters, the label limit of section 2.3.4 of RFC 1035, and a name within the limit is not
      touched. */
  lemma NameFits(node: string, shim: string, op: string)
    ensures JobName(node, shim, op) <= node + "-" + shim + "-" + op
    ensures |JobName(node, shim, op)| == if |node| + |shim| + |op| <= 61 then |node| + |shim| + |op| + 2 else 63
    ensures JobName(node, shim, op) == FullName(node, shim, op) <==> |node| + |shim| + |op| <= 61
  {
  }

  /** The install and uninstall names of one pair differ exactly when the node and shim names
      together have at most 60 characters. */
  lemma OperationsOfOnePair(node: string, shim: string)
    ensures JobName(node, shim, INSTALL) != JobName(node, shim, UNINSTALL) <==> |node| + |shim| <= 60
  {
    var stem := node + "-" + shim + "-";
    var a, b := FullName(node, shim, INSTALL), FullName(node, shim, UNINSTALL);
    assert a == stem + INSTALL && b == stem + UNINSTALL;
    if |stem| < NAME_MAX {
      assert JobName(node, shim, INSTALL)[|stem|] == a[|stem|] == 'i';
      assert JobName(node, shim, UNINSTALL)[|stem|] == b[|stem|] == 'u';
    } else {
      assert a[..NAME_MAX] == stem[..NAME_MAX] == b[..NAME_MAX];
      assert Truncate(a) == a[..NAME_MAX];
    }
  }

  /** Untruncated names of different operations never collide, whatever the nodes and shims. */
  lemma DifferentOperations(n1: string, s1: string, n2: string, s2: string)
    requires Untruncated(n1, s1, INSTALL) && Untruncated(n2, s2, UNINSTALL)
    ensures JobName(n1, s1, INSTALL) != JobName(n2, s2, UNINSTALL)
  {
    var a, b := FullName(n1, s1, INSTALL), FullName(n2, s2, UNINSTALL);
    assert a[|a| - 8] == '-' && b[|b| - 8] == 'n';
  }

  /** The dash ambiguity: `shim` swallows the tail of `node`. */
  ghost predicate DashShift(n1: string, s1: string, n2: string, s2: string) {
    exists x: string :: n1 == n2 + "-" + x && s2 == x + "-" + s1
  }

  lemma SharedStem(n1: string, s1: string, n2: string, s2: string)
    requires n1 + "-" + s1 == n2 + "-" + s2 && |s1| <= |s2|
    ensures (n1 == n2 && s1 == s2) || DashShift(n1, s1, n2, s2)
  {
    var t := n1 + "-" + s1;
    assert t[..|n1|] == n1 && t[|n1|] == '-' && t[|n1| + 1..] == s1;
    assert t[..|n2|] == n2 && t[|n2|] == '-' && t[|n2| + 1..] == s2;
    if |n1| > |n2| {
      var x := t[|n2| + 1..|n1|];
      assert n1 == n2 + "-" + x;
      assert s2 == x + "-" + s1;
    }
  }

  lemma ShiftShares(n1: string, s1: string, n2: string, s2: string)
    requires DashShift(n1, s1, n2, s2)
    ensures n1 + "-" + s1 == n2 + "-" + s2
  {
    var x: string :| n1 == n2 + "-" + x && s2 == x + "-" + s1;
    assert (n2 + "-" + x) + "-" + s1 == n2 + "-" + (x + "-" + s1);
  }

  /** Untruncated names of one operation collide exactly when the pairs are equal or differ by a
      dash shift, so one shim name ends in a dash and the other shim name. */
  lemma SameOperation(n1: string, s1: string, n2: string, s2: string, op: string)
    requires Untruncated(n1, s1, op) && Untruncated(n2, s2, op)
    ensures JobName(n1, s1, op) == JobName(n2, s2, op)
            <==> (n1 == n2 && s1 == s2) || DashShift(n1, s1, n2, s2) || DashShift(n2, s2, n1, s1)
  {
    var a, b := n1 + "-" + s1, n2 + "-" + s2;
    assert FullName(n1, s1, op) == a + ("-" + op) && FullName(n2, s2, op) == b + ("-" + op);
    if JobName(n1, s1, op) == JobName(n2, s2, op) {
      assert (a + ("-" + op))[..|a|] == a && (b + ("-" + op))[..|b|] == b;
      if |s1| <= |s2| {
        SharedStem(n1, s1, n2, s2);
      } else {
        SharedStem(n2, s2, n1, s1);
      }
    }
    if DashShift(n1, s1, n2, s2) {
      ShiftShares(n1, s1, n2, s2);
    }
    if DashShift(n2, s2, n1, s1) {
      ShiftShares(n2, s2, n1, s1);
    }
  }

  /** For one shim, untruncated names of different nodes are different. */
  lemma NodesOfOneShim(n1: string, n2: string, shim: string, op: string)
    requires Untruncated(n1, shim, op) && Untruncated(n2, shim, op) && n1 != n2
    ensures JobName(n1, shim, op) != JobName(n2, shim, op)
  {
    SameOperation(n1, shim, n2, shim, op);
    assert forall x: string :: |x + "-" + shim| > |shim|;
  }
}
