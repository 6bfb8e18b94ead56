/** From an endpoints object to a server list: every address with every port, once, in order. */
module Endpoints {
  import opened Pools

  datatype Subset = Subset(addresses: seq<string>, ports: seq<int>)

  /** The order of sort.Strings. */
  predicate Less(a: string, b: string) {
    if b == "" then false
    else if a == "" then true
    else if a[0] != b[0] then a[0] < b[0]
    else Less(a[1..], b[1..])
  }

  lemma {:induction false} LessIsTotal(a: string, b: string)
    ensures a == b || Less(a, b) || Less(b, a)
    ensures !(Less(a, b) && Less(b, a)) && (a == b ==> !Less(a, b))
    decreases |a|
  {
    if a != "" && b != "" && a[0] == b[0] {
      LessIsTotal(a[1..], b[1..]);
      if a[1..] == b[1..] {
        assert a == [a[0]] + a[1..] && b == [b[0]] + b[1..];
      }
    }
  }

  lemma {:induction false} LessIsTransitive(a: string, b: string, c: string)
    requires Less(a, b) && Less(b, c)
    ensures Less(a, c)
    decreases |a|
  {
    if a != "" && a[0] == b[0] && b[0] == c[0] {
      LessIsTransitive(a[1..], b[1..], c[1..]);
    }
  }

  /** The first difference decides, and a shorter string comes before what it begins. */
  ghost predicate Earlier(a: string, b: string) {
    || (a < b)
    || exists i | 0 <= i < |a| && i < |b| :: a[..i] == b[..i] && a[i] < b[i]
  }

  lemma FirstDecides(a: string, b: string)
    requires a != "" && b != "" && a[0] != b[0]
    ensures Earlier(a, b) <==> a[0] < b[0]
  {
    assert a[..0] == b[..0];
    forall i | 0 < i < |a| && i < |b| ensures a[..i] != b[..i] {
      assert a[..i][0] == a[0] && b[..i][0] == b[0];
    }
  }

  lemma {:induction false} LessExactly(a: string, b: string)
    ensures Less(a, b) <==> Earlier(a, b)
    decreases |a|
  {
    if a != "" && b != "" && a[0] == b[0] {
      LessExactly(a[1..], b[1..]);
      if Earlier(a[1..], b[1..]) && !(a[1..] < b[1..]) {
        var i :| 0 <= i < |a[1..]| && i < |b[1..]| && a[1..][..i] == b[1..][..i] && a[1..][i] < b[1..][i];
        assert a[..i + 1] == [a[0]] + a[1..][..i] && b[..i + 1] == [b[0]] + b[1..][..i];
        assert a[i + 1] < b[i + 1];
      }
      if Earlier(a, b) && !(a < b) {
        var i :| 0 <= i < |a| && i < |b| && a[..i] == b[..i] && a[i] < b[i];
        assert a[1..][..i - 1] == a[..i][1..] && b[1..][..i - 1] == b[..i][1..];
        assert a[1..][i - 1] < b[1..][i - 1];
      }
    } else if a != "" && b != "" {
      FirstDecides(a, b);
    }
  }

  predicate StrictlySorted(xs: seq<string>) {
    forall i, j | 0 <= i < j < |xs| :: Less(xs[i], xs[j])
  }

  function InsertSorted(x: string, xs: seq<string>): seq<string> {
    if xs == [] || !Less(xs[0], x) then [x] + xs else [xs[0]] + InsertSorted(x, xs[1..])
  }

  /** sort.Strings. */
  function SortStrings(xs: seq<string>): seq<string> {
    if xs == [] then [] else InsertSorted(xs[0], SortStrings(xs[1..]))
  }

  lemma {:induction false} InsertSortedSpec(x: string, xs: seq<string>)
    requires StrictlySorted(xs) && x !in xs
    ensures StrictlySorted(InsertSorted(x, xs))
    ensures forall y :: y in InsertSorted(x, xs) <==> y == x || y in xs
    decreases |xs|
  {
    if xs == [] {
    } else if Less(xs[0], x) {
      InsertSortedSpec(x, xs[1..]);
      var r := InsertSorted(x, xs[1..]);
      assert xs == [xs[0]] + xs[1..];
      assert forall i | 0 <= i < |r| :: r[i] in r;
    } else {
      LessIsTotal(x, xs[0]);
      forall i | 0 <= i < |xs| ensures Less(x, xs[i]) {
        if i > 0 {
          LessIsTransitive(x, xs[0], xs[i]);
        }
      }
    }
  }

  /** Sorting a list without repetition gives the same elements in strictly increasing order. */
  lemma {:induction false} SortStringsSpec(xs: seq<string>)
    requires Distinct(xs)
    ensures StrictlySorted(SortStrings(xs))
    ensures forall y :: y in SortStrings(xs) <==> y in xs
    decreases |xs|
  {
    if xs != [] {
      SortStringsSpec(xs[1..]);
      assert xs == [xs[0]] + xs[1..];
      InsertSortedSpec(xs[0], SortStrings(xs[1..]));
    }
  }

  /** A strictly sorted list repeats nothing, so it meets what reconciliation asks of its input. */
  lemma SortedIsDistinct(xs: seq<string>)
    requires StrictlySorted(xs)
    ensures Distinct(xs)
  {
    forall i, j | 0 <= i < j < |xs| ensures xs[i] != xs[j] {
      LessIsTotal(xs[i], xs[j]);
    }
  }

  predicate OffersPair(s: Subset, address: string, port: int) {
    address in s.addresses && port in s.ports
  }

  /** Some subset lists both the address and the port. */
  ghost predicate Offered(subsets: seq<Subset>, join: (string, int) -> string, hp: string) {
    exists i, a, p :: 0 <= i < |subsets| && OffersPair(subsets[i], a, p) && hp == join(a, p)
  }

  ghost predicate OfferedBy(s: Subset, join: (string, int) -> string, hp: string) {
    exists a, p :: OffersPair(s, a, p) && hp == join(a, p)
  }

  lemma AddressStep(s: Subset, join: (string, int) -> string, i: nat)
    requires i < |s.addresses|
    ensures forall hp :: OfferedBy(Subset(s.addresses[..i + 1], s.ports), join, hp) <==>
      OfferedBy(Subset(s.addresses[..i], s.ports), join, hp)
      || exists k | 0 <= k < |s.ports| :: hp == join(s.addresses[i], s.ports[k])
  {
    var more, less := Subset(s.addresses[..i + 1], s.ports), Subset(s.addresses[..i], s.ports);
    assert s.addresses[..i + 1] == s.addresses[..i] + [s.addresses[i]];
    forall k | 0 <= k < |s.ports| ensures OfferedBy(more, join, join(s.addresses[i], s.ports[k])) {
      assert OffersPair(more, s.addresses[i], s.ports[k]);
    }
    assert forall a, p :: OffersPair(less, a, p) ==> OffersPair(more, a, p);
    assert forall a, p :: OffersPair(more, a, p) ==> OffersPair(less, a, p) || a == s.addresses[i];
  }

  /** The two inner loops: the pairs of one subset, each kept the first time it is seen. */
  method CollectSubset(s: Subset, join: (string, int) -> string, start: seq<string>) returns (addrs: seq<string>)
    requires Distinct(start)
    ensures Distinct(addrs)
    ensures forall hp :: hp in addrs <==> hp in start || OfferedBy(s, join, hp)
  {
    addrs := start;
    for i := 0 to |s.addresses|
      invariant Distinct(addrs)
      invariant forall hp :: hp in addrs <==> hp in start || OfferedBy(Subset(s.addresses[..i], s.ports), join, hp)
    {
      ghost var before := addrs;
      var a := s.addresses[i];
      for j := 0 to |s.ports|
        invariant Distinct(addrs)
        invariant forall hp :: hp in addrs <==> hp in before || exists k | 0 <= k < j :: hp == join(a, s.ports[k])
      {
        var hp := join(a, s.ports[j]);
        if hp !in addrs {
          addrs := addrs + [hp];
        }
      }
      AddressStep(s, join, i);
    }
    assert s.addresses[..|s.addresses|] == s.addresses;
  }

  lemma SubsetStep(subsets: seq<Subset>, join: (string, int) -> string, i: nat)
    requires i < |subsets|
    ensures forall hp :: Offered(subsets[..i + 1], join, hp) <==>
      Offered(subsets[..i], join, hp) || OfferedBy(subsets[i], join, hp)
  {
    var more, less := subsets[..i + 1], subsets[..i];
    forall hp ensures Offered(more, join, hp) <==> Offered(less, join, hp) || OfferedBy(subsets[i], join, hp) {
      if Offered(less, join, hp) {
        var k, a, p :| 0 <= k < |less| && OffersPair(less[k], a, p) && hp == join(a, p);
        assert OffersPair(more[k], a, p);
      }
      if OfferedBy(subsets[i], join, hp) {
        var a, p :| OffersPair(subsets[i], a, p) && hp == join(a, p);
        assert OffersPair(more[i], a, p);
      }
    }
  }

  /** The discovered list: exactly the offered pairs, strictly sorted. */
  method Collect(subsets: seq<Subset>, join: (string, int) -> string) returns (addrs: seq<string>)
    ensures StrictlySorted(addrs)
    ensures forall hp :: hp in addrs <==> Offered(subsets, join, hp)
  {
    addrs := [];
    for i := 0 to |subsets|
      invariant Distinct(addrs)
      invariant forall hp :: hp in addrs <==> Offered(subsets[..i], join, hp)
    {
      addrs := CollectSubset(subsets[i], join, addrs);
      SubsetStep(subsets, join, i);
    }
    assert subsets[..|subsets|] == subsets;
    SortStringsSpec(addrs);
    addrs := SortStrings(addrs);
  }
}
