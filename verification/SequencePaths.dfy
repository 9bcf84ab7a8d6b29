/** Names of lock nodes: how the sequence number is read back from a path, and how the lowest child is found. */
module SequencePaths {
  import opened GoStrings

  function ParseSeq(path: string): Parsed {
    Atoi(Last(Split(path, ':')))
  }

  /** The name Zookeeper gives to a protected ephemeral sequential node. */
  function ChildName(guid: string, n: nat): string {
    "_c_" + guid + "-lock:" + Decimal(n, 10)
  }

  /** Whatever stands before the last colon, the number comes back. */
  lemma NumberComesBack(before: string, n: nat)
    ensures ParseSeq(before + ":" + Decimal(n, 10)) == if n <= MAX_INT then Number(n) else Malformed
  {
    var d := Decimal(n, 10);
    SplitAt(before, ':', d);
    SplitWithout(d, ':');
    assert Split(before, ':') + [d] != [] && Last(Split(before, ':') + [d]) == d;
    AtoiOfDigits(d);
  }

  /** The number of a node is read back from its path, colons in the lock id or the guid notwithstanding. */
  lemma SequenceRoundTrip(id: string, guid: string, n: nat)
    ensures ParseSeq(ChildName(guid, n)) == if n <= MAX_INT then Number(n) else Malformed
    ensures ParseSeq(id + "/" + ChildName(guid, n)) == ParseSeq(ChildName(guid, n))
  {
    NumberComesBack("_c_" + guid + "-lock", n);
    NumberComesBack(id + "/" + "_c_" + guid + "-lock", n);
    assert ChildName(guid, n) == "_c_" + guid + "-lock" + ":" + Decimal(n, 10);
    assert id + "/" + ChildName(guid, n) == id + "/" + "_c_" + guid + "-lock" + ":" + Decimal(n, 10);
  }

  // ----- the lowest child -----

  datatype Lowest = Lowest(number: int, path: string) | BadChild

  predicate WellNamed(children: seq<string>) {
    forall c <- children :: ParseSeq(c).Number?
  }

  function Numbers(children: seq<string>): (ns: seq<int>)
    requires WellNamed(children)
    ensures |ns| == |children| && forall k :: 0 <= k < |ns| ==> ns[k] == ParseSeq(children[k]).value
  {
    seq(|children|, k requires 0 <= k < |children| => ParseSeq(children[k]).value)
  }

  /** The scan of lowestSeqChild over the numbers: -1 stands for "none yet". */
  function Scan(ns: seq<int>): int {
    if ns == [] then -1
    else
      var low := Scan(ns[..|ns| - 1]);
      var n := ns[|ns| - 1];
      if low == -1 || n < low then n else low
  }

  /** `r` is the number and the path of one of the children, and it is what the scan yields. */
  predicate Scanned(dir: string, children: seq<string>, r: Lowest)
    requires WellNamed(children)
  {
    && r.Lowest? && r.number == Scan(Numbers(children))
    && (children == [] ==> r == Lowest(-1, ""))
    && (children != [] ==> exists c <- children :: r.path == dir + "/" + c && ParseSeq(c) == Number(r.number))
  }

  method LowestSeqChild(dir: string, children: seq<string>) returns (r: Lowest)
    ensures r.BadChild? <==> !WellNamed(children)
    ensures r.BadChild? <==> exists c <- children :: ParseSeq(c).Malformed?
    ensures r.Lowest? ==> Scanned(dir, children, r)
    ensures r.Lowest? ==>
      if children == [] then r.number == -1 && r.path == ""
      else exists c <- children :: r.path == dir + "/" + c && ParseSeq(c) == Number(r.number)
  {
    var lowest, path := -1, "";
    for k := 0 to |children|
      invariant WellNamed(children[..k]) && Scanned(dir, children[..k], Lowest(lowest, path))
    {
      assert children[..k + 1] == children[..k] + [children[k]];
      match ParseSeq(children[k]) {
        case Malformed =>
          assert children[k] in children;
          return BadChild;
        case Number(n) =>
          assert Numbers(children[..k + 1]) == Numbers(children[..k]) + [n];
          if lowest == -1 || n < lowest {
            lowest, path := n, dir + "/" + children[k];
          }
      }
    }
    assert children[..|children|] == children;
    return Lowest(lowest, path);
  }

  predicate IsMinimum(m: int, ns: seq<int>) {
    m in ns && forall n <- ns :: m <= n
  }

  function Minimum(ns: seq<int>): (m: int)
    requires ns != []
    ensures IsMinimum(m, ns)
    ensures m in ns && forall n <- ns :: m <= n
  {
    if |ns| == 1 then ns[0]
    else
      var m := Minimum(ns[..|ns| - 1]);
      assert ns == ns[..|ns| - 1] + [ns[|ns| - 1]];
      if ns[|ns| - 1] < m then ns[|ns| - 1] else m
  }

  /** The scan finds the minimum unless that is -1, its own mark for "none yet", and comes before the last child. */
  lemma {:induction false} ScanIsMinimumIff(ns: seq<int>)
    requires ns != []
    ensures Scan(ns) in ns
    ensures Scan(ns) == Minimum(ns) <==> Minimum(ns) != -1 || ns[|ns| - 1] == -1
  {
    var init, n := ns[..|ns| - 1], ns[|ns| - 1];
    if init != [] {
      ScanIsMinimumIff(init);
      assert ns == init + [n];
    }
  }

  /** A child numbered -1 is forgotten when another one follows. */
  lemma ScanForgetsMinusOne()
    ensures Scan([-1, 5]) == 5 && Minimum([-1, 5]) == -1
  {
    assert [-1, 5][..1] == [-1] && [-1][..0] == [];
    assert Scan([-1]) == -1;
  }

  /** For the numbers Zookeeper hands out, the result is the true minimum, and -1 only without children. */
  lemma LowestIsTrueMinimum(dir: string, children: seq<string>, r: Lowest)
    requires WellNamed(children) && Scanned(dir, children, r) && forall n <- Numbers(children) :: n >= 0
    ensures r.number == -1 <==> children == []
    ensures r.path == "" <==> children == []
    ensures children != [] ==> IsMinimum(r.number, Numbers(children))
    ensures forall c <- children :: ParseSeq(c).Number? && r.number <= ParseSeq(c).value
  {
    if children != [] {
      ScanIsMinimumIff(Numbers(children));
      forall c <- children
        ensures r.number <= ParseSeq(c).value
      {
        var k :| 0 <= k < |children| && children[k] == c;
        assert Numbers(children)[k] in Numbers(children);
      }
    }
  }
}
