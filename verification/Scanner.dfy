/** Resolution lists and unique names (server/scanner.cpp, server/server.cpp). */
module Scanners {
  import opened Text
  import opened Arithmetic

  // ---- resolutions ---------------------------------------------------------

  /** roundToNearestStep: the last grid point not above the value. */
  function RoundDown(value: int, min: int, step: int): int
    requires step >= 1
  {
    min + (value - min) / step * step
  }

  predicate OnGrid(r: int, min: int, step: int)
    requires step >= 1
  {
    RoundDown(r, min, step) == r
  }

  lemma RoundDownBounds(value: int, min: int, step: int)
    requires step >= 1
    ensures RoundDown(value, min, step) <= value < RoundDown(value, min, step) + step
    ensures OnGrid(RoundDown(value, min, step), min, step)
  {
    var q := (value - min) / step;
    assert value - min == q * step + (value - min) % step;
    QuotientUnique(step, q, 0);
  }

  /** Nothing on the grid lies between a value and its rounding. */
  lemma RoundDownMonotone(a: int, b: int, min: int, step: int)
    requires step >= 1 && a <= b
    ensures RoundDown(a, min, step) <= RoundDown(b, min, step)
  {
    var p, q := (a - min) / step, (b - min) / step;
    assert a - min == p * step + (a - min) % step && b - min == q * step + (b - min) % step;
    if p > q {
      Distribute(p, q, step);
      AtLeast(p - q, step);
    }
  }

  /** The candidates 75, 150, 300, ... */
  function Standard(k: nat): (r: int)
    ensures r >= 75
  {
    if k == 0 then 75 else 2 * Standard(k - 1)
  }

  lemma {:induction false} StandardMonotone(j: nat, k: nat)
    requires j <= k
    ensures Standard(j) <= Standard(k)
    decreases k
  {
    if j < k {
      StandardMonotone(j, k - 1);
    }
  }

  lemma {:induction false} StandardDoubles(k: nat)
    ensures Standard(k) == 75 * Power(2, k)
  {
    if k > 0 {
      StandardDoubles(k - 1);
    }
  }

  predicate Increasing(s: seq<int>) {
    forall i, j :: 0 <= i < j < |s| ==> s[i] < s[j]
  }

  /**
   * discretizeResolutions: from the minimum to the last grid point not above
   * the maximum, strictly increasing, on the step grid, with every standard
   * resolution rounded to the grid that lies in between.
   */
  method DiscretizeResolutions(min: int, max: int, wantedStep: int) returns (rs: seq<int>)
    requires min <= max
    ensures
      var step := if wantedStep < 1 then 1 else wantedStep;
      && rs != [] && rs[0] == min && Increasing(rs)
      && (forall i :: 0 <= i < |rs| ==> OnGrid(rs[i], min, step) && rs[i] <= max)
      && rs[|rs| - 1] <= max < rs[|rs| - 1] + step
      && (forall k: nat :: min < RoundDown(Standard(k), min, step) <= max ==> RoundDown(Standard(k), min, step) in rs)
  {
    hide RoundDown, Standard;
    var step := if wantedStep < 1 then 1 else wantedStep;
    rs := [min];
    MinOnGrid(min, step);
    ghost var k: nat := 0;
    StandardIs(0);
    var r := 75;
    var r2 := RoundDown(r, min, step);
    RoundDownBounds(r, min, step);
    while r2 <= max
      invariant r == Standard(k) && r2 == RoundDown(r, min, step) && r < r2 + step
      invariant rs != [] && rs[0] == min && Increasing(rs) && rs[|rs| - 1] <= max
      invariant forall i :: 0 <= i < |rs| ==> OnGrid(rs[i], min, step) && rs[i] <= max
      invariant rs[|rs| - 1] == min || rs[|rs| - 1] <= r2
      invariant forall j: nat :: j < k ==>
        RoundDown(Standard(j), min, step) <= rs[|rs| - 1] &&
        (min < RoundDown(Standard(j), min, step) ==> RoundDown(Standard(j), min, step) in rs)
      decreases max + step - r
    {
      RoundDownBounds(r, min, step);
      if r2 > rs[|rs| - 1] {
        rs := rs + [r2];
      }
      assert min < r2 ==> r2 in rs by {
        assert rs[|rs| - 1] in rs;
      }
      StandardIs(k + 1);
      RoundDownMonotone(r, 2 * r, min, step);
      r := r * 2;
      r2 := RoundDown(r, min, step);
      RoundDownBounds(r, min, step);
      k := k + 1;
    }
    forall j: nat | min < RoundDown(Standard(j), min, step) <= max
      ensures RoundDown(Standard(j), min, step) in rs
    {
      if j >= k {
        StandardMonotone(k, j);
        RoundDownMonotone(Standard(k), Standard(j), min, step);
      }
    }
    r2 := RoundDown(max, min, step);
    RoundDownBounds(max, min, step);
    GridPointBelow(rs[|rs| - 1], max, min, step);
    if r2 > rs[|rs| - 1] {
      rs := rs + [r2];
    }
  }

  lemma MinOnGrid(min: int, step: int)
    requires step >= 1
    ensures OnGrid(min, min, step)
  {
  }

  lemma StandardIs(k: nat)
    ensures Standard(0) == 75 && (k >= 1 ==> Standard(k) == 2 * Standard(k - 1))
  {
  }

  lemma GridPointBelow(r: int, max: int, min: int, step: int)
    requires step >= 1 && OnGrid(r, min, step) && r <= max
    ensures r <= RoundDown(max, min, step)
  {
    RoundDownMonotone(r, max, min, step);
  }

  // ---- names ---------------------------------------------------------------

  lemma DecInjective(i: nat, j: nat)
    requires Dec(i) == Dec(j)
    ensures i == j
  {
    EvalNumeral(i, 10);
    EvalNumeral(j, 10);
  }

  /** The i-th stable name tried for a device. */
  function StableCandidate(prefix: string, i: nat): string {
    prefix + Dec(i)
  }

  /** The i-th published name tried: the plain name, then numbered ones. */
  function PublishedCandidate(base: string, i: nat): string {
    if i <= 1 then base else base + (" (" + (Dec(i) + ")"))
  }

  lemma StableInjective(prefix: string, i: nat, j: nat)
    requires StableCandidate(prefix, i) == StableCandidate(prefix, j)
    ensures i == j
  {
    assert StableCandidate(prefix, i)[|prefix|..] == Dec(i);
    assert StableCandidate(prefix, j)[|prefix|..] == Dec(j);
    DecInjective(i, j);
  }

  lemma CandidateText(base: string, i: nat)
    requires i >= 1
    ensures PublishedCandidate(base, i) == if i == 1 then base else base + " (" + Dec(i) + ")"
  {
    hide Numeral;
  }

  lemma PublishedInjective(base: string, i: nat, j: nat)
    requires 1 <= i && 1 <= j && PublishedCandidate(base, i) == PublishedCandidate(base, j)
    ensures i == j
  {
    hide Numeral;
    if i > 1 && j > 1 {
      var a, b := PublishedCandidate(base, i)[|base|..], PublishedCandidate(base, j)[|base|..];
      assert a == " (" + (Dec(i) + ")") && b == " (" + (Dec(j) + ")");
      assert a[2..|a| - 1] == Dec(i) && b[2..|b| - 1] == Dec(j);
      DecInjective(i, j);
    }
  }

  /** A set that contains n names found to be taken has at least n elements. */
  lemma SubsetSize(a: set<string>, b: set<string>)
    requires a <= b
    ensures |a| <= |b|
  {
    assert b == a + (b - a);
  }

  /** generateStableUniqueName: the first number whose name no other instance has. */
  method StableUniqueName(prefix: string, taken: set<string>) returns (name: string, ghost i: nat)
    ensures 1 <= i <= |taken| + 1 && name == prefix + Dec(i) && name !in taken
    ensures forall j :: 1 <= j < i ==> prefix + Dec(j) in taken
  {
    hide Numeral;
    var n: nat := 1;
    name := StableCandidate(prefix, n);
    ghost var tried: set<string> := {};
    while name in taken
      invariant n >= 1 && name == StableCandidate(prefix, n)
      invariant tried <= taken && |tried| == n - 1 && n - 1 <= |taken|
      invariant forall j :: 1 <= j < n ==> prefix + Dec(j) in taken
      invariant forall s :: s in tried ==> exists j: nat :: 1 <= j < n && s == StableCandidate(prefix, j)
      decreases |taken| - n
    {
      if name in tried {
        var j: nat :| 1 <= j < n && name == StableCandidate(prefix, j);
        StableInjective(prefix, n, j);
      }
      tried := tried + {name};
      SubsetSize(tried, taken);
      n := n + 1;
      name := StableCandidate(prefix, n);
    }
    i := n;
  }

  /** chooseUniquePublishedName: the first candidate no scanner is published under. */
  method UniquePublishedName(base: string, taken: set<string>) returns (name: string, ghost i: nat)
    ensures 1 <= i <= |taken| + 1 && name !in taken
    ensures name == if i == 1 then base else base + " (" + Dec(i) + ")"
    ensures i > 1 ==> base in taken && forall j :: 2 <= j < i ==> base + " (" + Dec(j) + ")" in taken
  {
    hide PublishedCandidate, Numeral;
    var n: nat := 1;
    name := PublishedCandidate(base, n);
    ghost var tried: set<string> := {};
    while name in taken
      invariant n >= 1 && name == PublishedCandidate(base, n)
      invariant tried <= taken && |tried| == n - 1 && n - 1 <= |taken|
      invariant forall j :: 1 <= j < n ==> PublishedCandidate(base, j) in taken
      invariant forall s :: s in tried ==> exists j: nat :: 1 <= j < n && s == PublishedCandidate(base, j)
      decreases |taken| - n
    {
      if name in tried {
        var j: nat :| 1 <= j < n && name == PublishedCandidate(base, j);
        PublishedInjective(base, n, j);
      }
      tried := tried + {name};
      SubsetSize(tried, taken);
      n := n + 1;
      name := PublishedCandidate(base, n);
    }
    i := n;
    CandidateText(base, 1);
    CandidateText(base, i);
    forall j | 2 <= j < i
      ensures base + " (" + Dec(j) + ")" in taken
    {
      CandidateText(base, j);
    }
  }

  /** The part of a stable name that does not depend on other scanners. */
  function StablePrefix(device: string, makeAndModel: string): string {
    var p := FirstColon(device);
    (if p == |device| then device + ":" else device[..p + 1]) + (makeAndModel + ":")
  }

  function FirstColon(s: string): (p: nat)
    ensures p <= |s|
  {
    if s == "" || s[0] == ':' then 0 else 1 + FirstColon(s[1..])
  }

  /** The driver's name up to its colon, which is added if it has none, and the model. */
  lemma StablePrefixText(device: string, makeAndModel: string) returns (driver: string, port: string)
    ensures ':' !in driver && StablePrefix(device, makeAndModel) == driver + ":" + makeAndModel + ":"
    ensures device == driver + (if ':' in device then ":" + port else "")
  {
    var p := FirstColon(device);
    ColonIsFirst(device);
    driver := device[..p];
    port := if p < |device| then device[p + 1..] else "";
    assert p < |device| ==> device[..p + 1] == driver + ":" && device == driver + ":" + port;
    assert p == |device| ==> device[..p] == device;
  }

  lemma {:induction false} ColonIsFirst(s: string)
    ensures ':' !in s[..FirstColon(s)] && (FirstColon(s) < |s| <==> ':' in s)
    ensures FirstColon(s) < |s| ==> s[FirstColon(s)] == ':'
  {
    if s != "" && s[0] != ':' {
      ColonIsFirst(s[1..]);
      var p := FirstColon(s);
      assert s[..p] == [s[0]] + s[1..][..p - 1];
      assert ':' in s <==> ':' in s[1..];
    }
  }

  datatype Op = Create(id: nat, device: string, makeAndModel: string) | Delete(id: nat)

  /** The live instances of Scanner::Private with their stable names. */
  class Registry {
    var names: map<nat, string>

    ghost predicate Valid()
      reads this
    {
      && (forall a :: a in names ==> names[a] != "")
      && (forall a, b :: a in names && b in names && a != b ==> names[a] != names[b])
    }

    constructor ()
      ensures Valid() && names == map[]
    {
      names := map[];
    }

    /** Constructs and initialises a scanner; only the names of others count as taken. */
    method Add(id: nat, device: string, makeAndModel: string)
      requires Valid() && id !in names
      modifies this
      ensures Valid() && names.Keys == old(names).Keys + {id}
      ensures forall a :: a in old(names) ==> names[a] == old(names)[a]
      ensures exists i: nat ::
        1 <= i <= |old(names)| + 1 && names[id] == StablePrefix(device, makeAndModel) + Dec(i)
    {
      var taken := set a | a in names :: names[a];
      var name, i := StableUniqueName(StablePrefix(device, makeAndModel), taken);
      ValuesAtMostKeys(names, taken);
      names := names[id := name];
    }

    method Remove(id: nat)
      requires Valid()
      modifies this
      ensures Valid() && names == old(names) - {id}
    {
      names := names - {id};
    }

    /** After any run of creations and deletions all stable names are distinct. */
    method Perform(ops: seq<Op>)
      requires Valid()
      modifies this
      ensures Valid()
    {
      for i := 0 to |ops|
        invariant Valid()
      {
        match ops[i] {
          case Create(id, device, makeAndModel) =>
            if id !in names { Add(id, device, makeAndModel); }
          case Delete(id) => Remove(id);
        }
      }
    }
  }

  lemma {:induction false} ValuesAtMostKeys(m: map<nat, string>, values: set<string>)
    requires values == set a | a in m :: m[a]
    ensures |values| <= |m|
    decreases |m|
  {
    if m.Keys != {} {
      var k :| k in m.Keys;
      var rest := m - {k};
      var fewer := set a | a in rest :: rest[a];
      assert rest.Keys == m.Keys - {k};
      ValuesAtMostKeys(rest, fewer);
      forall v | v in values
        ensures v in fewer + {m[k]}
      {
        var a :| a in m && m[a] == v;
        assert a != k ==> a in rest && rest[a] == v;
      }
      SubsetSize(values, fewer + {m[k]});
    } else {
      assert values == {};
    }
  }
}
